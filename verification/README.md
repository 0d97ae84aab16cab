# Verified kernels of the database workbench

The workbench runs SQL for a desktop client. Behind its windows sit a handful of
small algorithms on which much depends: how a result is cut into batches while
other queries run and are cancelled, how SQL text is quoted, filtered, redacted
and filled with parameters, what the charts compute, and four state machines that
must survive failures. This project models each of them in Dafny, in the form the
code has (loops and mutable objects as methods and classes, expressions as
functions), and proves what each is for.

| file | kernel |
|---|---|
| `Batches`, `Streamers` | cutting rows into batches; the streaming loops and NDJSON re-assembly |
| `QueryGuard`, `RunProtocol`, `RunGuarantees`, `RunProgress`, `CancelGuarantees` | query permits; any number of concurrent queries over permits and the cancel set; what can always still happen; when a cancel request works |
| `Quoting`, `WhereClause`, `QueryTransform`, `QueryMeaning`, `FilterMeaning`, `QueryPaths` | identifiers and literals in SQL text; the filter and sort written around a query, read back and given a meaning, also from what the user types; when its two ways of writing them agree |
| `BindParams`, `BindParamsExact`, `BindParamsValues`, `BindParamsLimits`, `BindParamsLiterals`, `BindParamsTexts` | bind parameters: replacement one by one against one simultaneous substitution, and exactly when they agree; what a value becomes; the orders and texts told from the input |
| `Redaction` | literal redaction of stored SQL |
| `SqlAst`, `SqlNodes`, `SqlPlaces`, `SqlAnalyzer` | the syntax tree and its nodes; which of them name what and lead where; the mutually recursive collector over it |
| `Statistics`, `TrendLine`, `ControlLimits`, `Binning` | the charts' arithmetic over exact reals |
| `QueryCache` | the LRU cache with a time limit |
| `Migration` | the schema migration under crashes |
| `Orchestrator`, `NodeOutcomes` | the agent loop; what a node comes to, told from the answers |
| `HealthMonitor` | the connection monitor |
| `Wrappers`, `Text` | shared: optional values; characters and strings |

What comes from outside is input: rows, chunks, parse results, pings, reconnects,
agents' answers, the clock, and the points at which a process dies.
`dafny verify dfyconfig.toml` checks the whole project.

Some properties one would like do not hold of the code; the model keeps the code
and states when they do hold:

- A query's error batch is withheld for the exact text "Query cancelled"
  (src-tauri/src/commands/query.rs:158-160), so a query ends with one final batch
  exactly when `FinalDue` holds (`RunGuarantees.OneFinalBatch`). The errors of the
  SQL row streams never have that text (`RunGuarantees.FinishedSqlQueryEndsFinal`).
- A cancel request stops a query if and only if its loop has yet to ask the cancel
  set: a SQL query when the rows not yet sent, up to the first failure, fill a batch; a
  ClickHouse query when it is still to fetch; a DuckDB query never
  (`CancelGuarantees.CancelStopsIff`). Otherwise the request stays in the set.
  `OneRowIsNotStopped` is an input.
- The dots marked on the chart builder's control chart are looked up by row number
  among the positions of values (src/components/charts/GraphBuilder.tsx:1166-1178);
  `ControlLimits.MarksRightIff` says exactly when they are the right ones, and
  `ControlLimits.GapMisplacesMark` is a chart on which they are not.
- A patch by the agent loop is not tested again (src/agents/orchestrator.ts:66-77);
  `Orchestrator.TestedIffTwoAttempts` says exactly when every kept diff was tested.
- The parsed path and the string fallback denote the same query if and only if every
  filtered column has a name (`QueryPaths.PathsAgreeIffNamed`); otherwise the fallback's
  text cannot be read, as for the request of `UnnamedFilterParts`. A sort without a
  column name sorts both by a column named like the direction
  (`QueryPaths.UnnamedSortIsKeyword`).
- One-by-one parameter replacement is one simultaneous substitution, for all values
  whose literals have no sigil, if and only if no placeholder has leading zeros and none
  can be captured by digits or NULL (`BindParamsValues.ConfirmExact`). Names without
  digits and without a capital N never are (`LettersConfirm`), so `::int,:id` is filled in
  correctly. `BindParamsLimits` has five texts with values for which the results differ.
- The analyzer's patterns pass over parts of the tree: the array of `IN UNNEST`, the
  operands of expressions without an arm of their own such as `TRIM`, the window of
  `OVER`, and others (src-tauri/src/intelligence/sql_analyzer.rs:357-505). What it lists
  is exactly what occurs outside those parts (`SqlAnalyzer.AnalyzeQuery`); it misses
  nothing if and only if they hold nothing new (`SqlNodes.SeenWholeIff`), and three
  inputs show columns it misses.

## Model

| member | source | states |
|---|---|---|
| Batches.FlushKeepsInv | src-tauri/src/db/query_executor.rs:94-108 | sending a batch the moment it is full keeps: numbers 1, 2, 3, ..., cumulative counts, nothing final, each batch not full without its last row, and sent rows plus held rows equal the rows read |
| Batches.CancelDelivers | src-tauri/src/db/query_executor.rs:94-105 | a run cancelled at a full batch still delivers every row read so far and ends with one final batch |
| Batches.FinishCompletes | src-tauri/src/db/query_executor.rs:110-115 | at the end of the rows the rest, possibly empty, becomes the one final batch and all rows are delivered |
| Batches.FailureBreaksOff | src-tauri/src/db/query_executor.rs:94-115 | when the rows break off with an error, what was sent are the first rows read, in order, correctly numbered, nothing final, short of those read by less than a batch |
| Batches.DeliveredMeans | src-tauri/src/db/query_executor.rs:56-116 | spelled out for any finished run: all rows in order, indices 1, 2, 3, ..., cumulative counts, no columns and no error, only the last batch final; each at most 500 rows and under 262144 bytes without its last row, each but the last with 500 rows or that many bytes |
| Batches.RowsOfPlace | src-tauri/src/db/query_executor.rs:94-115 | every row of every batch stands in the result behind the rows of the batches before |
| Batches.BytesAppend | src-tauri/src/db/query_executor.rs:90-93 | the bytes of a batch add up over any cut of its rows |
| Batches.BytesOfOne | src-tauri/src/db/query_executor.rs:90-93 | one row counts with its own size, none with nothing |
| Batches.BatchesDetermined | src-tauri/src/db/query_executor.rs:94-116 | two complete runs over the same rows have the same batches: the protocol leaves no freedom |
| Streamers.CancelSet.IsCancelled | src-tauri/src/db/query_executor.rs:22-31 | answers whether the id is in the shared set and consumes just that id |
| Streamers.CancelSet.Insert | src-tauri/src/commands/query.rs:285-292 | a cancel request adds its id and disturbs no other |
| Streamers.StreamSql | src-tauri/src/db/query_executor.rs:56-116 | with other tasks changing the cancel set at every row: all rows; or a driver error behind exactly the first rows of the source, less than a batch of them unsent; or a prefix because this very id was requested; header from the first row |
| Streamers.EveryRowIsRead | src-tauri/src/db/query_executor.rs:72-93 | of a stream without failure every row is read, in its place |
| Streamers.HeaderTells | src-tauri/src/db/query_executor.rs:75-82 | a header is sent exactly when there is a row: index 0, no rows, not final, with the columns of the first row |
| Streamers.StreamDuckDb | src-tauri/src/db/duckdb_engine.rs:79-122 | the same guarantees for DuckDB, which sends its header first and cannot be cancelled |
| Streamers.DuckDbBatches | src-tauri/src/db/duckdb_engine.rs:79-122 | every DuckDB batch but the last holds exactly 500 rows, the last fewer |
| Streamers.LinesAppend | src-tauri/src/db/query_executor.rs:383-400 | reading on from the unfinished line gives the same objects as reading the whole text |
| Streamers.LineRead | src-tauri/src/db/query_executor.rs:383-390 | a line gives the row its trimmed text parses to, none if it is blank or does not parse, and the text behind it gives the others |
| Streamers.UnfinishedLine | src-tauri/src/db/query_executor.rs:383-386 | text without a newline gives no row and is kept |
| Streamers.StreamClickHouse | src-tauri/src/db/query_executor.rs:361-423 | an uncancelled run delivers exactly the objects of the complete, non-blank, parseable lines of the concatenated text; a cancelled one those of a prefix of the chunks |
| Streamers.ChunkInvariance | src-tauri/src/db/query_executor.rs:361-423 | two ways of cutting one text into chunks emit the same batches and header |
| QueryGuard.AcquireDescribes | src-tauri/src/security.rs:62-88 | a permit is refused exactly at a limit, global limit first, and otherwise the counters describe one more live permit |
| QueryGuard.ReleaseDescribes | src-tauri/src/security.rs:48-60 | dropping a live permit removes just that one, and neither saturating subtraction is ever clamped |
| QueryGuard.SumIsTotal | src-tauri/src/security.rs:25-29 | the per-connection counts sum to the total |
| QueryGuard.EveryRun | src-tauri/src/security.rs:25-88 | after any interleaving of acquires and drops: total = live permits = sum of counts, at most 6 and 2, no zero stored, and idle again when all are dropped |
| QueryGuard.SharedGuard.AcquireQueryPermit | src-tauri/src/security.rs:62-88 | the in-place update keeps the counters equal to the live permits and refuses exactly at the limits, changing nothing |
| QueryGuard.SharedGuard.Drop | src-tauri/src/security.rs:48-60 | the in-place release takes exactly this permit out of the live ones |
| RunProtocol.StepKeeps | src-tauri/src/commands/query.rs:104-177 | every step of any task, canceller or permit holder keeps the invariant of the whole system |
| RunProtocol.RunKeeps | src-tauri/src/commands/query.rs:104-177 | the invariant holds after every interleaving from the start |
| RunGuarantees.OneFinalBatch | src-tauri/src/commands/query.rs:104-177 | a query emits at most one final batch and nothing behind it, and emits one exactly when it returned or failed with a text other than "Query cancelled" |
| RunGuarantees.EveryQuery | src-tauri/src/commands/query.rs:72-183 | in every reachable state, for every query on a SQL, DuckDB or ClickHouse connection: the first emission alone announces the columns, an error that is not "Query cancelled" is reported with its own text in the last emission alone, which is final and without rows; one final batch exactly when due; the permit counted until the query is finished; an early stop only for an id that was requested; otherwise all rows delivered, and on an error exactly the first rows before it, less than a batch of them unsent |
| RunGuarantees.EveryState | src-tauri/src/commands/query.rs:72-183 | the counters equal the permits of unfinished queries plus those of other holders, within limits, and no id is stopped more often than it was requested |
| RunGuarantees.NothingAfterFinal | src-tauri/src/commands/query.rs:104-177 | once a query has emitted its final batch no step of any task changes what it has emitted |
| RunProgress.EveryQueryCanFinish | src-tauri/src/commands/query.rs:104-177 | from any state an unfinished query reaches its end by its own actions alone: no other query, cancel request or permit can hold it up |
| RunProgress.AllPermitsComeBack | src-tauri/src/commands/query.rs:72-183 | from every reachable state all permits can come back by the actions of queries and holders alone: nothing is counted any more and any connection is granted a permit |
| RunProgress.LosingFrees | src-tauri/src/commands/query.rs:72-183 | a task lost before it runs gives exactly its own permit back |
| RunGuarantees.SmallResultIgnoresCancel | src-tauri/src/db/query_executor.rs:94-100 | whatever part of a result below one batch has been read, the next step of a SQL or DuckDB task does not ask the cancel set |
| RunGuarantees.FinishedSqlQueryEndsFinal | src-tauri/src/commands/query.rs:151-176 | with the errors a SQL row stream reports, every finished query has emitted exactly one final batch, last of all, which carries the text of the error the query failed with and no error if it returned |
| RunGuarantees.TaskEmitsWhatStreamSqlDoes | src-tauri/src/db/query_executor.rs:56-116 | the stepwise task and the SQL loop, over the same rows and uncancelled, emit the same header and batches |
| RunGuarantees.TaskEmitsWhatStreamDuckDbDoes | src-tauri/src/db/duckdb_engine.rs:79-122 | the same for the DuckDB loop |
| RunGuarantees.TaskEmitsWhatStreamClickHouseDoes | src-tauri/src/db/query_executor.rs:361-423 | the same for the ClickHouse loop: the rows completed chunk by chunk are those of the whole text |
| CancelGuarantees.CancelStopsIff | src-tauri/src/db/query_executor.rs:94-105 | from any reachable state with the id requested, over every interleaving and for each kind of loop: the query returns early only if its loop had yet to ask the set; unless some query of that id was stopped it had not and the request is still there; with an id of its own this is an if and only if |
| CancelGuarantees.OneRowIsNotStopped | src-tauri/src/db/query_executor.rs:94-100 | a SQL result of one row below 256 KiB cannot be stopped, a ClickHouse one can |
| Quoting.QuotedIdentifierLexes | src-tauri/src/db/query_transform.rs:203-220 | the quoted text is a chain of delimited identifiers that lexes to exactly the normalized non-blank parts and ends there |
| Quoting.SegmentNamed | src-tauri/src/db/query_transform.rs:203-218 | a dotted part stands for the name it delimits, any other for its trimmed text unchanged, and the parts behind the dot go on |
| Quoting.BlankSegment | src-tauri/src/db/query_transform.rs:206 | a part of white space alone stands for nothing |
| Text.UndoubleKeeps | src-tauri/src/db/query_transform.rs:208-213 | only two quotes in a row are taken for one: a delimited text without such a pair stays as it is |
| Text.BlankIff | src-tauri/src/db/query_transform.rs:206-208 | trimming leaves nothing exactly of white space, by code point |
| Text.TrimIs | src-tauri/src/db/query_transform.rs:207-208 | trimming takes away white space at both ends, and what is left neither starts nor ends with any |
| Quoting.SegmentsOfQuoted | src-tauri/src/db/query_transform.rs:203-220 | quoting does not change which names are meant |
| Quoting.QuotedIdentifierIdempotent | src-tauri/src/db/query_transform.rs:203-220 | quoting a quoted identifier changes nothing, for every string |
| Quoting.QuotedAlikeIffSameSegments | src-tauri/src/db/query_transform.rs:203-220 | two identifiers are quoted alike if and only if they mean the same names |
| Quoting.EscapedLiteralLexes | src-tauri/src/db/query_transform.rs:222-224 | an escaped value between quotes lexes back to the value and ends at its own closing quote |
| WhereClause.CompareReads | src-tauri/src/db/query_transform.rs:166-186 | an operator filter's text reads back as that comparison with that operand, whatever follows |
| WhereClause.ILikeReads | src-tauri/src/db/query_transform.rs:152-162 | an ILIKE filter's text reads back as that pattern on that column |
| WhereClause.NullReads | src-tauri/src/db/query_transform.rs:145-149 | an IS NULL filter's text reads back as such |
| WhereClause.AndJoinReads | src-tauri/src/db/query_transform.rs:194-201 | conditions joined by AND read back as the left fold the parsed path builds |
| WhereClause.OrGroupReads | src-tauri/src/db/query_transform.rs:152-163 | the parenthesized OR chain of the global filter reads back as one condition |
| QueryTransform.BuildFilterConditionSql | src-tauri/src/db/query_transform.rs:142-192 | the loop collects the condition texts of the winning filter, in iteration order; `FilterMeaning` says from what is typed what they mean |
| QueryTransform.ConditionsReadBack | src-tauri/src/db/query_transform.rs:142-192 | every condition text parses to the condition the request means, which `OperatorFilterReads` and `TextFilterReads` tell from what is typed |
| FilterMeaning.OperatorIsLongest | src-tauri/src/db/query_transform.rs:226-230 | the operator found is op if and only if op is the longest of the six that starts the text |
| FilterMeaning.NoOperator | src-tauri/src/db/query_transform.rs:226-230 | none is found exactly when none of the six starts it |
| FilterMeaning.OperatorFilterReads | src-tauri/src/db/query_transform.rs:166-182 | a filter typed as one of the six operators and an operand, "=" excluded behind ">" and "<", reads as that comparison of the column with the trimmed operand |
| FilterMeaning.TextFilterReads | src-tauri/src/db/query_transform.rs:183-189 | a filter that starts with no operator reads as ILIKE of its trimmed text between two "%" |
| FilterMeaning.SelectedMeans | src-tauri/src/db/query_transform.rs:142-192 | what a request selects: by its null filter alone if there is one, else by the global filter in some column if it is not blank, else by every column filter that is not blank |
| FilterMeaning.UntouchedIff | src-tauri/src/db/query_transform.rs:28-42 | the base query goes through untouched if and only if there is no sort and the request selects every row, whatever its conditions come to |
| FilterMeaning.SortIsDescending | src-tauri/src/db/query_transform.rs:232-238 | the sort is descending for "desc" in any letter case and ascending otherwise |
| FilterMeaning.TerminatorIs | src-tauri/src/db/query_transform.rs:95-97 | the base query loses white space, semicolons and white space at its end, and nothing else |
| QueryTransform.OrderReads | src-tauri/src/db/query_transform.rs:121-133 | the sort text reads back as the sort column and direction, and without a column name as a column named like the direction |
| QueryTransform.FallbackEffectiveSql | src-tauri/src/db/query_transform.rs:72-93 | the fallback writes the wrapped base, then the tail that `FallbackTailReads` gives a meaning |
| FilterMeaning.BothWrap | src-tauri/src/db/query_transform.rs:45-76 | both paths write `SELECT * FROM (`, the base query, `) AS _daitalk_q`: the fallback as it is typed without its terminator, the other as it is printed |
| QueryTransform.FallbackTailReads | src-tauri/src/db/query_transform.rs:72-93 | the text behind the wrapper reads as exactly the request's filter and order, and nothing is left over |
| QueryTransform.BuildEffectiveSql | src-tauri/src/db/query_transform.rs:28-70 | which path is taken, the parse of the wrapper around the printed base included, and that the parsed path's query carries the request's filter and order, the filter only on a SELECT; `FilterMeaning` tells both from what is typed |
| QueryMeaning.FilterMeansSelected | src-tauri/src/db/query_transform.rs:142-201 | for any iteration order of the filter map a row passes the built filter if and only if the request selects it, in three-valued logic; `FilterMeaning.SelectedMeans` spells out which rows those are |
| QueryMeaning.PathsDenoteTheSame | src-tauri/src/db/query_transform.rs:28-93 | the parsed path and the string fallback denote the same filtered, sorted relation, each with its own iteration order |
| QueryPaths.ColumnFilterParsesIffNamed | src-tauri/src/db/query_transform.rs:108-119 | a filter's text parses if and only if its column has a non-blank segment |
| QueryPaths.FallbackReadsIffNamed | src-tauri/src/db/query_transform.rs:72-93 | the fallback's tail reads as a filter and an order if and only if every filtered column has a name, for every request, sort and iteration order |
| QueryPaths.ParsedKeepsNamed | src-tauri/src/db/query_transform.rs:135-140 | the parsed path keeps exactly the conditions all of whose columns have names, and drops the others |
| QueryPaths.PathsAgreeIffNamed | src-tauri/src/db/query_transform.rs:28-93 | both paths build queries that denote the same if and only if every filtered column has a name, whatever the sort |
| QueryPaths.UnnamedSortIsKeyword | src-tauri/src/db/query_transform.rs:72-133 | a sort without a column name orders both paths' queries by a column named like the direction |
| QueryPaths.UnnamedFilterParts | src-tauri/src/db/query_transform.rs:72-140 | one filter on the column "": one path drops it, the other writes text that cannot be read |
| BindParams.ScansFindTokens | src/components/dialogs/BindParamsDialog.tsx:27-44 | the two pattern scans together find exactly the maximal placeholders of the text |
| BindParamsTexts.PlaceholderIs | src/components/dialogs/BindParamsDialog.tsx:27-39 | a placeholder is a colon, an ASCII letter or underscore and further such characters or digits, or a dollar and digits: by code |
| BindParams.DetectParams | src/components/dialogs/BindParamsDialog.tsx:23-53 | one parameter for each distinct placeholder, positional ones by number, keyed by name: the named ones in the order of the text, then the positional ones ascending |
| BindParams.SortedAscending | src/components/dialogs/BindParamsDialog.tsx:45-50 | positional numbers come out in strictly ascending order |
| BindParams.SortedLongestFirst | src/components/dialogs/BindParamsDialog.tsx:57-58 | the replacement order is by descending length |
| BindParams.CanonicalUnlessLeadingZero | src/components/dialogs/BindParamsDialog.tsx:41-49 | a placeholder reported by its number is the one in the text unless it has leading zeros |
| BindParams.LiteralReadsBack | src/components/dialogs/BindParamsDialog.tsx:60-64 | a value that is neither NULL nor a number reads back from its literal; which values those are is `BindParamsLiterals.LiteralMeans` |
| BindParamsLiterals.LiteralMeans | src/components/dialogs/BindParamsDialog.tsx:60-64 | against a reader of one signed number: a value is left bare if and only if its trimmed form spells NULL in any case or is read to its end as one number; it is then NULL or that number, and otherwise one quoted literal that reads back to the whole value |
| BindParamsLiterals.NumericIffRead | src/components/dialogs/BindParamsDialog.tsx:62 | the number pattern matches exactly what that reader reads to the end |
| BindParamsLiterals.TrimIs | src/components/dialogs/BindParamsDialog.tsx:62-63 | trimming gives the value without the white space of the language standard at both ends, and no other text is such |
| BindParamsLiterals.HasTrim | src/components/dialogs/BindParamsDialog.tsx:62-63 | every value has such a trimmed form |
| BindParamsLiterals.HyphenatedIsQuoted | src/components/dialogs/BindParamsDialog.tsx:62-64 | a value with a hyphen behind its first character, such as a date, is always quoted |
| BindParamsLiterals.LiteralOfName | src/components/dialogs/BindParamsDialog.tsx:60 | a placeholder gets the literal of the value under its own name, of the empty text if there is none |
| BindParams.SequentialIsSimultaneous | src/components/dialogs/BindParamsDialog.tsx:55-70 | replacing placeholder after placeholder, longest first, equals one simultaneous substitution of every maximal placeholder when no literal contains a sigil and at no stage the literals inserted complete the placeholder replaced next |
| BindParams.SubstituteParams | src/components/dialogs/BindParamsDialog.tsx:55-70 | the loop is that sequential replacement, including JavaScript's `$` expansions; the literals are those of `LiteralMeans`, the expansions those of `DollarForms` |
| BindParams.Confirm | src/components/dialogs/BindParamsDialog.tsx:72-83 | the result is the sequential replacement in the detected order, longest first; under the condition of `ConfirmExact` every placeholder is replaced by its own literal, all at once; `LiteralMeans`, `TokenIsReplaced`, `DetectedInOrder` and `SortIsStable` tell literals, text and order from the input |
| BindParamsTexts.TokenIsReplaced | src/components/dialogs/BindParamsDialog.tsx:55-70 | in the simultaneous substitution a placeholder that is not continued gives way to its literal and the rest is substituted by itself |
| BindParamsTexts.PlainStays | src/components/dialogs/BindParamsDialog.tsx:55-70 | a character that starts no placeholder stays |
| BindParamsTexts.ScanIsTokens | src/components/dialogs/BindParamsDialog.tsx:28-44 | a scan finds the maximal placeholders of its sigil in the order of the text |
| BindParamsTexts.FirstsInOrder | src/components/dialogs/BindParamsDialog.tsx:30-36 | each reported name stands for its first occurrence, and all that occur before that are reported before |
| BindParamsTexts.DetectedInOrder | src/components/dialogs/BindParamsDialog.tsx:23-53 | parameters are reported named ones first, as they first occur, then positional ones in ascending order of their numbers |
| BindParamsTexts.ParsePrinted | src/components/dialogs/BindParamsDialog.tsx:41-49 | the number in a positional name reads back, so different numbers have different names |
| BindParamsTexts.SortIsStable | src/components/dialogs/BindParamsDialog.tsx:57-58 | placeholders of one length are replaced in the order reported |
| BindParamsTexts.DollarForms | src/components/dialogs/BindParamsDialog.tsx:64-67 | the first `$` of a replacement text: doubled it stands for itself, before `&` for the placeholder, before a backquote for the text in front, before a quote for the text behind |
| BindParamsExact.AlwaysSimultaneousIff | src/components/dialogs/BindParamsDialog.tsx:55-70 | over all literals without sigils, whether or not a value has them: the two are equal if and only if every placeholder of the text is replaced and no later one extends the sigil or placeholder in front of an earlier one |
| BindParamsValues.ConfirmExact | src/components/dialogs/BindParamsDialog.tsx:72-83 | for every text, over all values the user can type whose literals have no sigil: the dialog fills in the simultaneous substitution if and only if no placeholder has leading zeros and none can be completed by digits or NULL |
| BindParamsValues.PositionalExact | src/components/dialogs/BindParamsDialog.tsx:72-83 | for texts without ':' that condition is about spacing alone |
| BindParamsValues.LettersConfirm | src/components/dialogs/BindParamsDialog.tsx:72-83 | texts whose names have neither digits nor a capital N are always filled in correctly, however they are spaced |
| BindParamsLimits.LiteralWithDollar | src/components/dialogs/BindParamsDialog.tsx:64-67 | `:a!` with value `$` becomes `'!!` instead of `'$'!` |
| BindParamsLimits.LiteralWithPlaceholder | src/components/dialogs/BindParamsDialog.tsx:57-68 | `:ab,:b` with values `:b` and 1 becomes `'1',1` instead of `':b',1` |
| BindParamsLimits.SigilInFront | src/components/dialogs/BindParamsDialog.tsx:57-68 | `$:ab,$5` with values 5 and 7 becomes `7,7` instead of `$5,7` |
| BindParamsLimits.Adjacent | src/components/dialogs/BindParamsDialog.tsx:57-68 | `:a$123,:a5` with values 8, 5 and 9 becomes `9,9` instead of `85,9` |
| BindParamsLimits.LeadingZero | src/components/dialogs/BindParamsDialog.tsx:41-49 | `$01` is reported as `$1` and stays in the text |
| Redaction.RedactSqlForStorage | src-tauri/src/intelligence/store.rs:398-426 | the character loop equals lex, erase every literal's content, print; unterminated literals included |
| Redaction.LoopIsLexErasePrint | src-tauri/src/intelligence/store.rs:398-426 | the one-flag scanner from any point refines the token-level form |
| Redaction.PrintLex | src-tauri/src/intelligence/store.rs:398-426 | lexing loses nothing: any text is the print of its tokens |
| Redaction.LexPrint | src-tauri/src/intelligence/store.rs:398-426 | printed tokens lex back to themselves |
| Redaction.RedactedLexes | src-tauri/src/intelligence/store.rs:398-426 | the stored text lexes to the input's tokens with contents erased, so all text outside literals is kept |
| Redaction.LiteralIsHidden | src-tauri/src/intelligence/store.rs:398-426 | of any value in a literal, closed or not, `[REDACTED]` and its quotes are stored and nothing else; the text before and behind is stored as by itself |
| Redaction.NothingToHide | src-tauri/src/intelligence/store.rs:398-426 | text without a quote is stored as it is |
| Redaction.RedactionIdempotent | src-tauri/src/intelligence/store.rs:398-426 | redacting twice is redacting once |
| Redaction.StoredAlikeIffSameShape | src-tauri/src/intelligence/store.rs:398-426 | exactly what storage reveals: two inputs are stored alike if and only if they differ in non-quote literal content alone |
| SqlAnalyzer.AnalyzeQuery | src-tauri/src/intelligence/sql_analyzer.rs:44-95 | the type is that of the first statement, kind by kind; a name is listed if and only if a table, or column, of that name occurs in it outside the parts its patterns pass over, every name before all behind it by code points; each flag is set if and only if a join, subquery, CTE or aggregate occurs there; otherwise the empty analysis |
| SqlAnalyzer.AnalyzeStatement | src-tauri/src/intelligence/sql_analyzer.rs:97-162 | on any accumulator: adds exactly what is named by the nodes reachable from the statement, child by child, outside skipped parts, and loses nothing found before |
| SqlAnalyzer.AnalyzeSelectQuery | src-tauri/src/intelligence/sql_analyzer.rs:164-193 | the same for the nodes below a query, its CTEs, limits and order included |
| SqlAnalyzer.AnalyzeSetExpr | src-tauri/src/intelligence/sql_analyzer.rs:195-225 | the same for the nodes below a set expression, statements in it included |
| SqlAnalyzer.AnalyzeSelect | src-tauri/src/intelligence/sql_analyzer.rs:227-268 | the same for the nodes below a select |
| SqlAnalyzer.CollectTableWithJoins | src-tauri/src/intelligence/sql_analyzer.rs:285-304 | the same for the nodes below a table with its joins |
| SqlAnalyzer.CollectTableFactor | src-tauri/src/intelligence/sql_analyzer.rs:318-355 | the same for the nodes below a table factor |
| SqlAnalyzer.CollectExpr | src-tauri/src/intelligence/sql_analyzer.rs:357-505 | the same for the nodes below an expression; with the others an induction over the mutually recursive tree |
| SqlAnalyzer.CollectFunction | src-tauri/src/intelligence/sql_analyzer.rs:507-518 | the same for the nodes below a function call |
| SqlNodes.Unfold | src-tauri/src/intelligence/sql_analyzer.rs:97-518 | what occurs below a node is the node and what occurs below its children outside skipped parts: paths through the tree and the recursion agree |
| SqlPlaces.TableIsNamedBy | src-tauri/src/intelligence/sql_analyzer.rs:104-225 | a table is named by an insert, a table factor or a TABLE body, and by no other node |
| SqlPlaces.ColumnIsNamedBy | src-tauri/src/intelligence/sql_analyzer.rs:270-545 | a column is named by an identifier, a wildcard, a composite's key, a USING column or an assignment, and by no other node |
| SqlPlaces.FlagsAreSetBy | src-tauri/src/intelligence/sql_analyzer.rs:164-518 | which nodes are joins, subqueries, CTEs and aggregates, and no others |
| SqlPlaces.AggregateNames | src-tauri/src/intelligence/sql_analyzer.rs:547-565 | a name of ASCII characters is an aggregate if and only if it is one of the thirteen in any letter case |
| SqlPlaces.OtherCapitals | src-tauri/src/intelligence/sql_analyzer.rs:547-565 | the dotless i counts as I, the long s as S, and the ligatures of s and t as ST |
| SqlPlaces.QualifiedIsNoAggregate | src-tauri/src/intelligence/sql_analyzer.rs:547-565 | a name with a schema in front is never taken for one |
| SqlPlaces.ExprLooksInto | src-tauri/src/intelligence/sql_analyzer.rs:357-505 | which children of an expression are visited |
| SqlPlaces.SelectLooksInto | src-tauri/src/intelligence/sql_analyzer.rs:227-268 | every clause of a select is visited, and nothing else below it |
| SqlPlaces.QueryLooksInto | src-tauri/src/intelligence/sql_analyzer.rs:164-193 | the CTEs, the body, the order and the limits of a query |
| SqlPlaces.StatementLooksInto | src-tauri/src/intelligence/sql_analyzer.rs:97-162 | which children of each kind of statement are visited |
| SqlPlaces.FunctionLooksInto | src-tauri/src/intelligence/sql_analyzer.rs:507-518 | the arguments, the filter and the order of a call |
| SqlPlaces.TableLooksInto | src-tauri/src/intelligence/sql_analyzer.rs:285-316 | the relations of a join and what they are joined on |
| SqlPlaces.FactorLooksInto | src-tauri/src/intelligence/sql_analyzer.rs:318-355 | which children of a table factor are visited |
| SqlPlaces.BodyLooksInto | src-tauri/src/intelligence/sql_analyzer.rs:195-225 | which children of a set expression, a row of values and a list of CTEs are visited |
| SqlPlaces.PartLooksInto | src-tauri/src/intelligence/sql_analyzer.rs:97-532 | the expression of an item or argument, what is grouped by, filtered by HAVING, assigned or returned, and the tables of USING are visited |
| SqlPlaces.SkippedBy | src-tauri/src/intelligence/sql_analyzer.rs:97-518 | which parts of a node are passed over, and no others |
| SqlPlaces.SkippedStandsFor | src-tauri/src/intelligence/sql_analyzer.rs:97-518 | a part passed over holds exactly the node it stands for |
| SqlNodes.MissedLiesInSkipped | src-tauri/src/intelligence/sql_analyzer.rs:97-518 | any node of the tree that the analysis does not see lies in a skipped part |
| SqlNodes.SeenWholeIff | src-tauri/src/intelligence/sql_analyzer.rs:97-518 | the analysis misses nothing in a tree if and only if the skipped parts hold nothing that does not occur elsewhere |
| SqlNodes.UnnestedColumnIsMissed | src-tauri/src/intelligence/sql_analyzer.rs:424-428 | the column in `x IN UNNEST(y)` is not listed |
| SqlNodes.TrimmedColumnIsMissed | src-tauri/src/intelligence/sql_analyzer.rs:357-505 | the column in `TRIM(y)` is not listed |
| SqlNodes.WindowColumnIsMissed | src-tauri/src/intelligence/sql_analyzer.rs:507-518 | the column in `OVER (PARTITION BY y)` is not listed |
| SqlAnalyzer.SortFacts | src-tauri/src/intelligence/sql_analyzer.rs:73-78 | sorting orders the names and keeps the set of names |
| SqlAnalyzer.DedupFacts | src-tauri/src/intelligence/sql_analyzer.rs:73-78 | on a sorted list, removing neighbours that repeat removes every repetition and no name |
| SqlAnalyzer.StringLessIff | src-tauri/src/intelligence/sql_analyzer.rs:73-78 | the order of names: the first difference decides, and a proper beginning comes first |
| TrendLine.PairOfRow | src/components/charts/GraphBuilder.tsx:382-386 | a row with two numbers gives a point with its own x and y, at the place that counts such rows before it |
| TrendLine.RowOfPair | src/components/charts/GraphBuilder.tsx:382-386 | every point comes from such a row |
| TrendLine.ExcessOverFit | src/components/charts/GraphBuilder.tsx:388-394 | what any line's squared residuals exceed the fitted line's by: its slope error times the spread of x, plus n times its squared miss at the centre |
| TrendLine.FitIsOptimal | src/components/charts/GraphBuilder.tsx:388-394 | no line has a smaller sum of squared residuals, also when all x are equal |
| TrendLine.OptimalIff | src/components/charts/GraphBuilder.tsx:388-394 | a line does as well if and only if it is the fitted one, or, where all x agree, meets it there |
| TrendLine.TrendIsDrawnRight | src/components/charts/GraphBuilder.tsx:379-402 | two points are drawn exactly when more than one pair is numeric; they lie at the least and the greatest x of the pairs, on the fitted line, and determine it, equal x included |
| TrendLine.BandSurroundsTrend | src/components/charts/GraphBuilder.tsx:405-428 | the confidence band runs in twenty equal steps from the least to the greatest x and is centred on the least-squares line at every step |
| Statistics.DeviationsFromMean | src/components/charts/GraphBuilder.tsx:55-58 | deviations from the mean cancel |
| ControlLimits.FlaggedIffFar | src/components/charts/ControlChart.tsx:32-44 | with automatic limits a row is flagged if and only if its number is more than three sigma from the mean, above or below |
| ControlLimits.FlaggedByTyped | src/components/charts/ControlChart.tsx:32-44 | typed limits flag exactly beyond themselves, a typed centre line stands for the mean |
| ControlLimits.PlaceOf | src/components/charts/ControlChart.tsx:21-25 | a numeric row's value stands in the list at the number of numeric rows before it |
| ControlLimits.NoSpreadNoSigma | src/components/charts/ControlChart.tsx:26-28 | values that all agree have sigma zero, in both charts |
| ControlLimits.Chebyshev | src/components/charts/ControlChart.tsx:21-46 | k values beyond three sigma of any centre, with c sigma squared of total deviation, force 9k < c |
| ControlLimits.PopulationChartBound | src/components/charts/ControlChart.tsx:21-46 | with automatic limits a positive violation count k means 9k < n, and at least eleven numeric points |
| ControlLimits.SampleChartBound | src/components/charts/GraphBuilder.tsx:60-65 | with the sample deviation a positive number k of violations means 9k < n - 1 |
| ControlLimits.ElevenPointsSuffice | src/components/charts/ControlChart.tsx:21-46 | the bound of eleven is met by both charts: ten equal values and one apart |
| ControlLimits.WesternElectricFinds | src/components/charts/GraphBuilder.tsx:153-158 | the violation list holds a position if and only if the value there is out of limits |
| ControlLimits.MarkTells | src/components/charts/GraphBuilder.tsx:1166-1178 | a dot is marked exactly when the value whose place in the list is the dot's row number is above the upper limit or below the lower |
| ControlLimits.MarkCountRight | src/components/charts/GraphBuilder.tsx:1166-1178 | always as many rows are flagged as are out of limits |
| ControlLimits.MarksRightIff | src/components/charts/GraphBuilder.tsx:1166-1178 | the marked dots are the rows out of limits if and only if no row without a number comes before such a row |
| ControlLimits.GapMisplacesMark | src/components/charts/GraphBuilder.tsx:1166-1178 | a row without a number before ten equal values and one apart: with automatic limits the mark is on the wrong row |
| Binning.QuantileMonotone | src/components/charts/GraphBuilder.tsx:67-73 | on sorted data a higher quantile is no smaller, so the interquartile range is never negative |
| Binning.QuantileAt | src/components/charts/GraphBuilder.tsx:67-73 | at position k + t the quantile lies that part t of the way from the kth value to the next, at a whole position it is the value there |
| Binning.IqrOfQuarters | src/components/charts/GraphBuilder.tsx:122-126 | of 4m + 1 values the range is the distance of the sorted values m and 3m |
| Binning.AutoWidthIs | src/components/charts/GraphBuilder.tsx:135 | the automatic width times the cube root of the count is twice that range; without a range there are ten bins |
| Binning.BinCountIs | src/components/charts/GraphBuilder.tsx:131-137 | a bin count asked for is taken; otherwise the least number of automatic widths that cover the range, kept between 5 and 50 |
| Binning.SortedEnds | src/components/charts/GraphBuilder.tsx:122-129 | the first and last sorted values are the least and greatest |
| Binning.IndexIff | src/components/charts/GraphBuilder.tsx:145-148 | a value is counted in bin i if and only if it lies in that half-open interval; the maximum belongs to the last bin |
| Binning.NearCentre | src/components/charts/GraphBuilder.tsx:139-148 | every computed index is in range and no value is further than half a width from its bin's x |
| Binning.GridCovers | src/components/charts/GraphBuilder.tsx:127-143 | the bins tile the range from the least value to the greatest, or one further where all agree, and hold every value |
| Binning.FillBins | src/components/charts/GraphBuilder.tsx:140-148 | the counting loop leaves in each bin the number of values whose index it is |
| Binning.FdBins | src/components/charts/GraphBuilder.tsx:119-150 | the whole function computes those bins on the grid from sorted data, with override or automatic bin count |
| Binning.BinningConserves | src/components/charts/GraphBuilder.tsx:119-150 | the counts sum to the number of values, and every value is in a non-empty bin within half a width of its x |
| QueryCache.AtMostFifty | src-tauri/src/db/query_cache.rs:11-84 | after every run at most 50 entries, one to a key |
| QueryCache.HitIsLatest | src-tauri/src/db/query_cache.rs:52-84 | after every run a hit is the value of the last insert under its key, made less than 300 s ago, with no later clear of its connection or of all: told by the calls themselves |
| QueryCache.RecentlyUsedHits | src-tauri/src/db/query_cache.rs:43-84 | after every run an entry under 300 s old and not cleared hits if at most 49 other keys were inserted or hit since its last use |
| QueryCache.LatestTold | src-tauri/src/db/query_cache.rs:64-84 | the entry that should be there is the one of a call with no later insert under its key and no later clear of its connection or of all |
| QueryCache.UsedTold | src-tauri/src/db/query_cache.rs:52-66 | a key was used since another if and only if some call inserted or hit it and neither that call nor a later one inserted or hit the other |
| QueryCache.MissDrops | src-tauri/src/db/query_cache.rs:52-62 | a miss leaves nothing under the key, so an expired entry goes |
| QueryCache.ClearDrops | src-tauri/src/db/query_cache.rs:69-84 | a clear takes every key of the connection named, or every key, and leaves all others as they were |
| QueryCache.FiftyOthersEvict | src-tauri/src/db/query_cache.rs:64-66 | fifty inserts under other keys push any entry out, so 49 is exact |
| QueryCache.Cache.Get | src-tauri/src/db/query_cache.rs:52-62 | promote, then return or pop: the in-place map stays the one the run determines |
| QueryCache.Cache.Insert | src-tauri/src/db/query_cache.rs:64-66 | replace or insert in front and drop the last of a full map |
| QueryCache.Cache.Clear | src-tauri/src/db/query_cache.rs:69-84 | collecting and then popping a connection's keys removes exactly those, in whatever order they are popped |
| Migration.Store.InitializeSchema | src-tauri/src/intelligence/store.rs:60-93 | the migration loop, with a crash after any number of statements, does exactly the first statements of the program fixed by the recorded version; `MigrationEndsWell` says field by field what they come to |
| Migration.FailsIff | src-tauri/src/intelligence/store.rs:95-351 | a statement fails if and only if a table it speaks of is missing |
| Migration.SettledStays | src-tauri/src/intelligence/store.rs:95-351 | a statement once done is a no-op when repeated, and stays one whatever statements follow |
| Migration.RunAgain | src-tauri/src/intelligence/store.rs:95-341 | running all statements again after a partial run ends where one run would |
| Migration.CrashThenStart | src-tauri/src/intelligence/store.rs:60-93 | from any database: a crash at any statement boundary and an undisturbed start end as one undisturbed start, failures included |
| Migration.AnyCrashes | src-tauri/src/intelligence/store.rs:60-93 | the same for any number of crashes anywhere |
| Migration.MigrationEndsWell | src-tauri/src/intelligence/store.rs:172-302 | through any crashes: versions 1 to 4 and all tables; each legacy benchmark copied once, in order and field by field ("legacy-" and its id, the parameter name as table, version 1, its time, notes of metric type, value and context), unless version 2 was recorded or there were benchmarks; lineage added for exactly the events whose source table is not blank and has no comma, unless version 3 was recorded; the indexes of every later version; everything else unchanged |
| Migration.IndexesEnd | src-tauri/src/intelligence/store.rs:95-341 | a finished migration has created the indexes of every version that was not recorded before |
| Migration.InstalledMeans | src-tauri/src/intelligence/store.rs:60-93 | what a store that completed version k is: versions 1 to k recorded and their tables there |
| Migration.VersionsArePrefix | src-tauri/src/intelligence/store.rs:343-351 | at every crash the recorded versions are 1 to some m and the tables of those versions exist |
| Orchestrator.RunNode | src/agents/orchestrator.ts:28-101 | one node's run with mutable status, attempts, outputs and error log ends as `NodeRun` tells from the answers, and the graph fails exactly with the node; `NodeOutcomes` says what that is |
| Orchestrator.RunAgentLoop | src/agents/orchestrator.ts:16-104 | returns exactly when no node throws; nodes up to the first throw end as their own answers determine, later nodes are untouched, and the graph's status tells which of the three ends it was |
| Orchestrator.EndsAt | src/agents/orchestrator.ts:26-30 | node i ends by its own role, limit and answers |
| Orchestrator.CallAt | src/agents/orchestrator.ts:26-100 | every call of every node up to the throw is made, behind the calls of the nodes before |
| Orchestrator.PatcherAgent | src/agents/patcher.ts:67-84 | calls the model if and only if an attempt is left and the API key is set; an answer is the model's, and not empty |
| Orchestrator.PromptedIffAttemptLeft | src/agents/patcher.ts:67-84 | in a node's run the patcher's model is called if and only if the patcher's turn came with an attempt left and the key set |
| Orchestrator.PassedNodesArePrefix | src/agents/orchestrator.ts:26-104 | the passed nodes are those before the first throw, and possibly one whose trace could not be written |
| Orchestrator.CoderNode | src/agents/orchestrator.ts:30-86 | whatever is answered: at most 2 coder calls, 3 reviews, 1 patcher call, each of the latest diff; a passed node keeps the very diff last judged, and approved, which the tests passed unless it is the patch |
| NodeOutcomes.CallsInOrder | src/agents/orchestrator.ts:30-94 | the calls of a node are its phases in order and nothing else: draft, second try, tests, patch, report or trace |
| NodeOutcomes.CoderIsCalled | src/agents/orchestrator.ts:31-41 | the coder is called a second time if and only if a draft came and its review asked for changes, with exactly those reasons |
| NodeOutcomes.CriticIsCalled | src/agents/orchestrator.ts:35-42 | the critic judges exactly the drafts that came, the second if and only if it was asked for, and the patch |
| NodeOutcomes.TesterAndPatcherAreCalled | src/agents/orchestrator.ts:59-67 | exactly the approved diff is tested, and exactly when its tests fail the patcher is called with it |
| NodeOutcomes.PassesIff | src/agents/orchestrator.ts:30-94 | a node passes if and only if a draft is approved at the first or second review and passes its tests, or fails them and a non-empty patch comes with an attempt and the key left and is approved; it keeps that very diff |
| NodeOutcomes.ReportSays | src/agents/orchestrator.ts:44-76 | the halt report has the reasons of the last rejection and the failures of the tests that were run, none if none were; it is kept exactly on such a rejection, if it could be written |
| NodeOutcomes.AttemptsCount | src/agents/orchestrator.ts:28-65 | attempts count the drafts that came and the patcher's turn |
| NodeOutcomes.OtherRolesPass | src/agents/orchestrator.ts:96-99 | a node of any other role passes without a call |
| Orchestrator.FailedIffRejectedLast | src/agents/orchestrator.ts:40-76 | a node is failed if and only if the last thing that happened to it was a rejection by the critic whose halt report was written; if that file cannot be written it stays running |
| Orchestrator.TestedIffTwoAttempts | src/agents/orchestrator.ts:58-77 | every passing node's diff has passed its tests if and only if `max_attempts` is at most 2 |
| HealthMonitor.Monitor.Visit | src-tauri/src/db/health_monitor.rs:30-81 | one connection's turn updates the map of counts and the log as the run determines |
| HealthMonitor.Monitor.Tick | src-tauri/src/db/health_monitor.rs:27-82 | a tick is one turn for each active connection |
| HealthMonitor.EveryRun | src-tauri/src/db/health_monitor.rs:22-83 | for every run and connection the events fit the pattern dropped, up to three tries, restored, and the failure count is positive exactly while the connection is down |
| HealthMonitor.DroppedAndRestoredAlternate | src-tauri/src/db/health_monitor.rs:22-83 | at every point dropped and restored strictly alternate starting with dropped, no outage has more than three reconnects, and the count is positive if and only if the last event is dropped |
| HealthMonitor.Independent | src-tauri/src/db/health_monitor.rs:30-81 | what is logged and counted for a connection depends on its own pings alone |
| HealthMonitor.PingTells | src-tauri/src/db/health_monitor.rs:38-80 | one ping logs a drop exactly when it is the first to fail, a reconnect exactly when fewer than three failed before and the configuration is there, a recovery exactly when the connection is back |
| HealthMonitor.CountIsOutage | src-tauri/src/db/health_monitor.rs:38-80 | the failure count is the length of the outage: so many pings at the end failed without recovery, and the one before them did not |
| HealthMonitor.OutageTriesThree | src-tauri/src/db/health_monitor.rs:51-80 | an outage in which connecting keeps failing logs one drop and then one reconnect for each of its first three pings |

## Left out

- ConfirmExact: values whose literals contain ':' or '$' are outside the condition.
- PathsAgreeIffNamed: `sqlparser` is represented by a reader of the fragment the code writes, which takes a lone ASC or DESC for a column, and by the assumption that the base query is one parseable statement which prints back to itself.
- BuildEffectiveSql: the parser is a parameter; that it keeps only the last of several statements, and that comments in the base text can swallow the wrapper, is not modelled.
- AnalyzeQuery: the syntax tree belongs to `sqlparser`, which is not part of this model; aliases, data types and other names that refer to no table or column are left out of the tree, and statements after the first are not looked at, as in the code.
- CancelStopsIff: with an id that queries share, any one of them may take the request.
- EveryState: MongoDB, Redis and SQL Server tasks are not in the system; a DuckDB header that cannot be emitted is not modelled.
- TrendIsDrawnRight: numeric text, which the code's filter lets through unconverted (src/components/charts/GraphBuilder.tsx:382-384) and `reduce` would concatenate, is not modelled.
- StreamClickHouse: works on characters; the code decodes UTF-8 chunk by chunk, which can damage a character cut in two, and a last line without a newline is dropped as in the code.
- EveryQuery: the batches carry no query id and no elapsed time; the error batch has index 0 as in the code.
- MigrationEndsWell: row ids, write times, foreign keys and tables that exist with other columns are not modelled.
- PopulationChartBound: automatic limits only; with limits typed in by the user any number of points can be out.
- FdBins: `Math.pow(n, -1 / 3)` is any positive number; negative or fractional overrides are not modelled.
- TrendLine, ControlLimits and Binning: exact reals, no rounding, infinities or overflow; `Math.sqrt` by its defining property.
- Counters are unbounded where the code has u32, u64 or usize; positional parameters are unbounded where JavaScript loses precision beyond 2^53.
- JavaScript strings are sequences of characters, not UTF-16 code units; upper-casing covers the characters that can produce an aggregate's name.
- `%` and `_` in filter values stay wildcards, as in the code.
- CTE names are listed among the source tables, as in the code.
- The MongoDB, Redis and SQL Server streamers: the first sends columns only at a flush, the others are variants of the loops modelled.
- `computeNumericDomain`, skewness, Pareto sums and the other chart helpers: easy members.
- The text of monitor messages, the agents' prompts and the halt report's advice.
- Lock poisoning, panics and failing event emission.
- Drivers, network, pools, SSH, OAuth, key storage and all rendering.
