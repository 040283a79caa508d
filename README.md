# Text-to-SQL prompting and refinement, modelled in Dafny

This project models the core of a text-to-SQL experiment harness. The harness works on the
BIRD benchmark.

- `src/gpt_request.py` turns a SQLite database into a textual schema prompt:
  - one stanza per user table, listing every column with its type, primary-key marker and
    human-written description;
  - the column's foreign-key target and up to `sample_limit` example values;
  - a closing section listing every foreign-key relation once, in sorted order.
- It wraps the schema with the question and the optional external knowledge into a completion
  prompt ending in a `SELECT ` cue.
- It normalises each completion into a line `SELECT…<tab>----- bird -----<tab><db_id>`. A
  failed call goes through the same normalisation, so its line is
  `SELECTerror:<message><tab>----- bird -----<tab><db_id>`.
- It splits the evaluation items into the lists the batch loop works on, and indexes the
  answers by position.
- `src/interactive_request.py` runs a refinement loop. It compares the prediction's rows
  with the gold query's rows as sets, gathers rule-based or typed feedback, and asks the
  model again with the previous attempt and all feedback so far in the prompt. It stops at
  the first match or after `max_iter` attempts.

Modules, in dependency order:

- `Wrappers`: `Option` and `Result`.
- `Strings`: Python's `strip`, `lower`/`upper`, `find`, `join`, `split`/`" ".join` collapsing,
  `replace` and `basename`-style helpers on `seq<char>`.
- `Ordering`: code-point order on strings, `sorted` and `sorted(set(…))`.
- `Quoting`: `quote_identifier` and its inverse.
- `Catalog`: a database as plain data. The catalog rows are a value, and the three queries the
  builder issues are functions returning rows or an error message.
- `Descriptions`: `load_column_descriptions`, with each CSV file abstracted as what each of
  the three encodings delivers.
- `ForeignKeys`: `get_foreign_keys`.
- `Stanza`: `fetch_column_examples` and `build_table_prompt`, whose `fk_relations` list is
  the class `RelationList` that the builder appends to.
- `Schema`: `generate_schema_prompt`.
- `Prompts`: `generate_comment_prompt` and `generate_combined_prompts_one`.
- `Batch`: `decouple_question_schema`, the loop of `collect_response_from_gpt` and
  `generate_sql_file`.
- `Interactive`: `execute_and_compare`, `auto_feedback`, the fence removal, `build_interactive_prompt`
  and `interactive_loop`.

Loops in the source are methods with loop invariants, proved against specification
functions (`LoadColumnDescriptions`, `GetForeignKeys`, `BuildTablePrompt`/`ColumnLoop`,
`GenerateSchemaPrompt`, `DecoupleQuestionSchema`, `CollectResponses`, `InteractiveLoop`).
The lemmas then state what those functions promise.

The outside world is passed in as parameters:

- SQLite queries are fields of `Catalog.Database`.
- The directory listing and the file decoding are `Descriptions.DescFile` values.
- The completion replies are a sequence of `Result`s in the batch loop.
- In the interactive loop, `Interactive.Setup` carries the completion replies, query
  execution and the two lines typed at each step.

The model follows the code in these behaviours, which a reader might not expect:

- The normaliser glues `SELECT` onto a reply with no space between (`Batch.SelectGluedOn`).
- `get_foreign_keys` keeps the LAST foreign-key row for a column, not the first
  (`ForeignKeys.MapOfLastWins`).
- A loop that never matches leaves `max_iter` feedback entries, one per attempt
  (`Interactive.StepCount`).

## Model

| member | source | states |
|---|---|---|
| Quoting.QuoteIdentifier | src/gpt_request.py:32-34 | the quoted form starts and ends with a double quote |
| Quoting.QuoteIdentifierLength | src/gpt_request.py:32-34 | the quoted form is the name's length plus two plus one per embedded `"` |
| Quoting.UndoubleDouble | src/gpt_request.py:34 | undoubling the doubled quotes gives the original text back |
| Quoting.DoubleUndouble | src/gpt_request.py:34 | any text that undoubles to `n` is exactly `n` with its quotes doubled |
| Quoting.UnquoteQuote | src/gpt_request.py:32-34 | unquoting a quoted identifier returns the name (round trip) |
| Quoting.QuoteUnquote | src/gpt_request.py:32-34 | any string that unquotes to a name is that name's quoted form, so quoting is injective |
| Catalog.UserTables | src/gpt_request.py:183 | a name is listed exactly when some `sqlite_master` row has type `table` and a name not matching `sqlite_%`; no more names than rows |
| Descriptions.MergeRow | src/gpt_request.py:57-65 | the candidate loop over one row gives the map that `AddRow` specifies |
| Descriptions.MergeAttemptRows | src/gpt_request.py:56-65 | the row loop of one attempt merges the rows in order, as `MergeRows` specifies |
| Descriptions.ReadDescriptionFile | src/gpt_request.py:50-72 | the encoding loop gives the decoded flag and map that `ReadFrom` specifies from the first encoding and an empty map |
| Descriptions.LoadColumnDescriptions | src/gpt_request.py:37-75 | the directory loop returns `DescriptionsOf(dir)`, which is empty when the directory is absent |
| Descriptions.AddRowEffect | src/gpt_request.py:57-65 | a row adds exactly its non-empty lower-cased candidates as keys, maps each to its stripped description, and leaves every other key unchanged |
| Descriptions.EmptyNameNeverKey | src/gpt_request.py:63-64 | the empty name is never written as a key |
| Descriptions.MergeRowsDomain | src/gpt_request.py:56-65 | after merging rows, the keys are the earlier keys plus those the rows name |
| Descriptions.MergeRowsStep | src/gpt_request.py:56-65 | one more row overwrites the keys it names with its description and keeps every other key |
| Descriptions.MergeRowsLastWins | src/gpt_request.py:56-65 | the last row naming a key decides that key's description |
| Descriptions.ReadFromOutcome | src/gpt_request.py:52-72 | a file counts as decoded exactly when the first attempt not ending in a decode error completed; when that attempt ends in a read error the result is undecoded and empty |
| Descriptions.FirstUndecodedEndSkips | src/gpt_request.py:68-69 | after a decode error, the search for the first other outcome continues from the next encoding |
| Descriptions.FirstUndecodedEndHere | src/gpt_request.py:52-72 | an attempt not ending in a decode error is the unique first such attempt from its own encoding on |
| Descriptions.NeverDecodedContributesNothing | src/gpt_request.py:73-74 | a file that is never decoded leaves the description map unchanged |
| Descriptions.Stored | src/gpt_request.py:45-74 | an entry stores a map exactly when it is a `.csv` file, some encoding completed and the map then held is non-empty; it stores that map under its lower-cased stem |
| Descriptions.LoadFilesStep | src/gpt_request.py:73-74 | the last entry either stores its own map for a table or leaves the table as the earlier entries left it |
| Descriptions.LastContributorWins | src/gpt_request.py:45-74 | the last entry that stores a map for a table decides that table's map |
| Descriptions.DecidedByExtend | src/gpt_request.py:45-74 | an entry that stores nothing for a table keeps the entry that decided the table |
| Descriptions.StoredTablesNonEmpty | src/gpt_request.py:45-74 | every stored table has a non-empty map; it comes from a `.csv` entry with that stem, lower-cased, namely the last entry that stores a map for it, some encoding of which completed and whose map it is |
| ForeignKeys.GetForeignKeys | src/gpt_request.py:97-114 | a failing pragma gives the empty map; otherwise the loop builds `MapOf` of the rows |
| ForeignKeys.ShortRowsIgnored | src/gpt_request.py:109 | rows with fewer than five fields contribute nothing |
| ForeignKeys.MapOfDomain | src/gpt_request.py:107-113 | a column has an entry exactly when some complete row names it as its from-column |
| ForeignKeys.MapOfLastWins | src/gpt_request.py:107-113 | the last complete row for a column decides its (table, column) target |
| Stanza.RelationList.constructor | src/gpt_request.py:188 | the relation list starts empty |
| Stanza.RelationList.Append | src/gpt_request.py:149 | appending adds the relation at the end and keeps the earlier ones |
| Stanza.ExampleStrings | src/gpt_request.py:89-93 | NULLs are skipped; without NULLs every value appears as its `str` form, in order |
| Stanza.FetchColumnExamples | src/gpt_request.py:78-94 | at most `limit` examples; a failing query gives none; when the query returns no NULL, the examples are its first `limit` values, in order, as strings |
| Stanza.ColumnType | src/gpt_request.py:142 | the type shown is never empty; it is the declared type whenever there is one, and `UNKNOWN` otherwise |
| Stanza.CleanDescription | src/gpt_request.py:144-146 | the cleaned description holds no whitespace other than single blanks, and has none at either end |
| Stanza.CleanDescriptionCollapsed | src/gpt_request.py:144-146 | the cleaned description has every whitespace run collapsed to one blank between two non-space characters, has exactly the words of the stored description (none when the column has no entry), and is those words joined by single blanks; `Strings.CollapsedByWords` shows the first two facts alone fix the result |
| Strings.WordsOfStrip | src/gpt_request.py:144 | stripping a text does not change its words |
| Strings.WordsOfCollapse | src/gpt_request.py:146 | joining the words of a text by single blanks does not change its words |
| Strings.CollapsedByWords | src/gpt_request.py:146 | two collapsed texts with the same words are the same text |
| Stanza.TrimmedDescription | src/gpt_request.py:154-158 | the trimmed description is a prefix of the description, and is unchanged without a foreign key |
| Stanza.TrimmedDescriptionCut | src/gpt_request.py:154-158 | with a foreign key, the result never contains "maps to" in any case; a description without it is kept whole |
| Stanza.TrimmedDescriptionFirstCut | src/gpt_request.py:154-158 | with a foreign key and a first case-insensitive "maps to" at index `i`, the result is a prefix of the text before `i`, only commas and blanks were dropped between them, and it does not end in a comma or a blank |
| Stanza.DescriptionHasNoNewline | src/gpt_request.py:144-159 | the description placed in an entry never holds a line break |
| Stanza.ColumnParts | src/gpt_request.py:151-160 | the parts open with `name: type` |
| Stanza.PrimaryKeyPart | src/gpt_request.py:151-160 | "Primary Key" is among the later parts exactly when the column is a key (or the description is that text); the part count is one plus the marker plus a non-empty description |
| Stanza.PartsTextShape | src/gpt_request.py:162 | the joined parts open with `name: type`, followed by `, Primary Key` for a key column |
| Stanza.EntryTextShape | src/gpt_request.py:165-172 | an entry opens with `  (` and the parts, and closes with `)` when it is last and with `),` otherwise |
| Stanza.EntryShape | src/gpt_request.py:139-173 | each column entry opens with its name and type (and the key marker) and closes with `)` or `),` |
| Stanza.EntryTextNewline | src/gpt_request.py:165-170 | with line-free parts and examples, an entry has a line break exactly when it has a foreign key, and then it contains the `Maps to` text |
| Stanza.ExamplesTextNewline | src/gpt_request.py:164 | examples without line breaks join into text without line breaks |
| Stanza.PartsTextNoNewline | src/gpt_request.py:151-162 | with a line-free name and type, the joined parts hold no line break |
| Stanza.MapsToExactlyWithForeignKey | src/gpt_request.py:148-170 | an entry spans two lines exactly when the column has a foreign key, and then shows `Maps to <table>(<column>)` |
| Stanza.ColumnLines | src/gpt_request.py:139-174 | one entry per column |
| Stanza.RelationsOf | src/gpt_request.py:148-149 | at most one relation per column |
| Stanza.BuildTablePrompt | src/gpt_request.py:117-176 | returns the stanza `TableStanza` specifies, and appends exactly that table's relations to the shared list, keeping the earlier ones |
| Stanza.ColumnLoop | src/gpt_request.py:139-174 | the column loop renders every column's entry in catalog order and appends the relations of all columns in order |
| Stanza.ColumnStep | src/gpt_request.py:140-173 | one pass renders the entry of column `idx` and extends the relation list by exactly that column's relations |
| Stanza.ColumnDescription | src/gpt_request.py:144-158 | the description steps give the cleaned, then trimmed, description |
| Stanza.ColumnPartsList | src/gpt_request.py:151-160 | the parts list is `ColumnParts` of the column and its trimmed description |
| Stanza.RenderColumn | src/gpt_request.py:162-173 | the line built piece by piece is the column's entry |
| Stanza.RelationsGrow | src/gpt_request.py:139-149 | the relations of fewer columns are a prefix of those of more columns |
| Stanza.RelationsOfMembers | src/gpt_request.py:147-149 | a relation is recorded exactly for a column with a foreign key, and names the table, the column and the target |
| Stanza.ColumnLinesShape | src/gpt_request.py:139-174 | every entry opens with its column's name and type, and only the last one lacks the trailing comma |
| Stanza.StanzaTextShape | src/gpt_request.py:175 | a stanza opens with its `# Table:` heading and `[`, and closes with the last entry's `)` and `]` |
| Stanza.StanzaShape | src/gpt_request.py:126-176 | a stanza is empty exactly when the column query fails or finds no columns; otherwise it opens with the `# Table:` heading and `[`, and closes with `)` and `]`; an empty stanza records no relation |
| Schema.NonEmpty | src/gpt_request.py:192-193 | keeps no empty stanza, and no more than it is given |
| Schema.KeptPositions | src/gpt_request.py:192-193 | every kept position is in range and holds a non-empty stanza |
| Schema.NonEmptyPositions | src/gpt_request.py:190-193 | the kept stanzas are exactly those at the kept positions, which increase, and every non-empty stanza is kept |
| Schema.FlattenMembers | src/gpt_request.py:186-195 | a relation is in the shared list exactly when some table recorded it |
| Schema.SortedTables | src/gpt_request.py:184 | the table names are in sorted order |
| Schema.SortedTablesMembers | src/gpt_request.py:183-184 | sorting keeps exactly the user tables |
| Schema.Stanzas | src/gpt_request.py:190-191 | one stanza per table |
| Schema.RelationLists | src/gpt_request.py:190-191 | one relation list per table |
| Schema.GenerateSchemaPrompt | src/gpt_request.py:179-202 | the table loop and the closing section give `SchemaText` |
| Schema.NoTablesNoSchema | src/gpt_request.py:183-202 | a database without user tables gets the empty schema |
| Schema.SectionsOfEmittedTables | src/gpt_request.py:190-195 | the schema holds one stanza per emitted table, in the same order |
| Schema.EmittedTablesSorted | src/gpt_request.py:184-195 | stanzas appear in sorted table-name order |
| Schema.EmittedTablesComplete | src/gpt_request.py:190-195 | every user table with a non-empty stanza is emitted |
| Schema.EmittedTablesSound | src/gpt_request.py:190-195 | only user tables with a non-empty stanza are emitted |
| Schema.EmittedTablesMembers | src/gpt_request.py:183-195 | a table is emitted exactly when it is a user table with a non-empty stanza |
| Schema.ForeignKeySectionListing | src/gpt_request.py:197-200 | with relations, the schema ends with the `【Foreign keys】` section; its lines are strictly sorted, hence distinct, and are exactly the relations some table recorded |
| Schema.TableSectionHeaded | src/gpt_request.py:175-193 | every table section opens with `# Table: ` |
| Schema.NoRelationsNoForeignKeySection | src/gpt_request.py:197-202 | without relations every section is a table stanza |
| Ordering.Sort | src/gpt_request.py:184 | `sorted` returns a sorted permutation of its input |
| Ordering.SortedPermutationUnique | src/gpt_request.py:184 | two sorted permutations of the same list are equal, so `sorted` is determined by its contract |
| Ordering.SortUnique | src/gpt_request.py:198 | `sorted(set(…))` is strictly sorted and has exactly the input's elements |
| Ordering.InsertSorted | src/gpt_request.py:184 | inserting into a sorted list keeps it sorted |
| Ordering.InsertNewStrictlySorted | src/gpt_request.py:198 | inserting a new element into a strictly sorted list keeps it strictly sorted |
| Ordering.StrictlySortedDistinct | src/gpt_request.py:198 | a strictly sorted list has no repeats |
| Ordering.BelowTotal | src/gpt_request.py:184 | string order is total |
| Ordering.BelowTransitive | src/gpt_request.py:184 | string order is transitive |
| Ordering.AtMostAntisymmetric | src/gpt_request.py:184 | string order is antisymmetric |
| Prompts.CommentShape | src/gpt_request.py:205-213 | the comment ends with the question line; it opens with the knowledge line exactly when the knowledge is truthy, and with the no-knowledge instruction otherwise |
| Prompts.KnowledgeReadBack | src/gpt_request.py:209-211 | line-free knowledge is exactly the text between the knowledge lead and the first line break, so it can be read back |
| Prompts.LineAfterLead | src/gpt_request.py:211 | a line-free text placed after a lead is exactly what lies between the lead and the next line break |
| Prompts.CombinedShape | src/gpt_request.py:220-224 | the combined prompt opens with the schema and a blank line, and ends with the question line and the `SELECT ` cue |
| Batch.Basename | src/gpt_request.py:260 | the base name is a suffix of the path and holds no `/` |
| Batch.DbIdOf | src/gpt_request.py:260 | the database id read from a path holds no `/` |
| Batch.PathJoinShape | src/gpt_request.py:295 | the joined path ends with the joined name, right after a `/` or at the very start |
| Batch.BasenameOfJoin | src/gpt_request.py:260 | the base name of a joined path is the last name joined, when that name holds no `/` |
| Batch.DbIdRoundTrip | src/gpt_request.py:295 | the id read back from an item's database path is the item's id, when the id holds no `/` and no `.` |
| Batch.ItemKnowledge | src/gpt_request.py:264-267 | with a knowledge list, the item's own entry is passed; otherwise no knowledge |
| Batch.DecoupleQuestionSchema | src/gpt_request.py:291-298 | three lists as long as the items; position `i` holds item `i`'s question, its `<root>/<id>/<id>.sqlite` path and its evidence |
| Batch.PromptsSent | src/gpt_request.py:259-267 | prompt `i` is the combined prompt for question `i`, database `i` and knowledge `i` |
| Batch.StoredLines | src/gpt_request.py:259-276 | line `i` is reply `i` normalised and tagged with the id of database `i` |
| Batch.CollectResponses | src/gpt_request.py:252-287 | the loop returns one stored line per question, in order, and sends the prompts `PromptsSent` lists |
| Batch.ItemPrompt | src/gpt_request.py:264-267 | one iteration's prompt is the combined prompt with that item's knowledge |
| Batch.ItemResponse | src/gpt_request.py:260-276 | one iteration stores its reply, or its error placeholder, normalised and tagged |
| Batch.NormalizeResponse | src/gpt_request.py:274-275 | the two normalising statements give `Normalize` |
| Batch.SqlFileMapReadBack | src/gpt_request.py:301-306 | the keys are exactly the positions, and reading the values in key order gives the list back |
| Batch.NormalizedSqlShape | src/gpt_request.py:274-275 | every normalised answer starts with `SELECT` in some case and has no surrounding whitespace |
| Batch.SelectAddedOnlyWhenMissing | src/gpt_request.py:274 | `SELECT` is added exactly when the stripped reply does not already start with it in some case |
| Batch.NormalizeShape | src/gpt_request.py:274-275 | every stored line starts with `SELECT` in some case and ends with the tag and the database id |
| Batch.NormalizeIdempotent | src/gpt_request.py:274-275 | normalising an already normalised answer changes nothing |
| Batch.DbIdReadBack | src/gpt_request.py:275 | an id without a tab is what follows the last tab of the stored line |
| Batch.ErrorPlaceholder | src/gpt_request.py:271-275 | a failed call is stored as `SELECTerror:` followed by the message |
| Batch.SelectGluedOn | src/gpt_request.py:274-275 | a stripped reply not starting with `s`/`S` is stored with `SELECT` glued on with no space |
| Batch.SelectReplyKept | src/gpt_request.py:274-275 | the `SELECT` test ignores letter case: a reply whose stripped text starts with `select` is stored stripped, with nothing put in front, followed by the tag |
| Batch.ResponseNamesItsDatabase | src/gpt_request.py:260-275 | each stored line ends with the tag and the id of the item it answers |
| Interactive.RowSet | src/interactive_request.py:32 | `set(rows)` holds exactly the rows returned |
| Interactive.ExecuteAndCompare | src/interactive_request.py:11-35 | reports a match exactly when the outcome is that the results match |
| Interactive.MatchExactly | src/interactive_request.py:11-35 | a match is reported exactly when both queries run and return the same set of rows |
| Interactive.ErrorPrecedence | src/interactive_request.py:15-29 | a prediction error is reported before anything about the gold query, and the gold query's result then plays no part; a gold error is reported exactly when the prediction ran and the gold query failed; either error is a non-match |
| Interactive.SetSemantics | src/interactive_request.py:32-35 | results that differ only in row order or repetition, or that are the same error, give the same outcome |
| Interactive.RowSetIgnoresOrderAndRepeats | src/interactive_request.py:32 | rearranged or repeated rows form the same set |
| Interactive.HintRules | src/interactive_request.py:41-50 | a specific hint is given only for a keyword the gold query has and the prediction lacks, in any case, and only when the earlier rules did not apply; the generic hint exactly when no rule applies |
| Interactive.SameQueryGenericHint | src/interactive_request.py:41-50 | a prediction equal to the gold query gets only the generic message |
| Interactive.HintIgnoresCase | src/interactive_request.py:43-47 | the rules ignore letter case |
| Interactive.StripFences | src/interactive_request.py:101 | fence removal never lengthens the text |
| Interactive.NoFenceUnchanged | src/interactive_request.py:101 | text without backticks passes fence removal unchanged |
| Interactive.ClosingFenceRemoved | src/interactive_request.py:101 | a backtick-free text followed by a closing fence loses the fence |
| Interactive.FencedReply | src/interactive_request.py:101 | a reply fenced as a `sql` block, in any case, yields the stripped query inside it |
| Interactive.FeedbackLines | src/interactive_request.py:72 | one feedback is one bullet line, and each further feedback adds a line at the end, in order |
| Interactive.FirstPromptIgnoresHistory | src/interactive_request.py:67-70 | the first prompt does not depend on the feedback, and ends with the question and the instruction |
| Interactive.InteractivePromptFrame | src/interactive_request.py:67-84 | every prompt opens with the schema and a blank line, and closes with the base instruction |
| Interactive.RetryPromptSections | src/interactive_request.py:73-84 | a retry prompt shows the previous prediction under its heading and the feedback block under its own |
| Interactive.RunCount | src/interactive_request.py:95-129 | a bounded loop stopping at its first match takes at most `k` steps (exactly `k` without a match), and keeps one feedback entry per non-matching step |
| Interactive.RunFrozen | src/interactive_request.py:116-119 | after a match the loop's state no longer changes |
| Interactive.RunStopsAtFirstMatch | src/interactive_request.py:116-119 | no earlier step matched |
| Interactive.RunHistoryGrows | src/interactive_request.py:122-129 | the feedback only grows, and earlier entries are never changed |
| Interactive.StepAdvances | src/interactive_request.py:96-129 | each pass counts one step and adds one feedback entry exactly when it does not match |
| Interactive.StepCount | src/interactive_request.py:95-129 | after `k` passes without a match there are `k` feedback entries; with a match, one fewer than the steps taken |
| Interactive.FrozenAfterMatch | src/interactive_request.py:116-119 | a match ends the loop: later bounds give the same result |
| Interactive.StopsAtFirstMatch | src/interactive_request.py:116-119 | the loop stops at the first matching step |
| Interactive.HistoryGrows | src/interactive_request.py:122-129 | feedback is only appended |
| Interactive.LoopFromSessions | src/interactive_request.py:95-129 | continuing the loop from any intermediate session reaches the same final session |
| Interactive.InteractiveLoop | src/interactive_request.py:87-140 | returns the question, the gold query and the last prediction, message and feedback of the loop stopped at the first match or after `max_iter` steps |
| Interactive.Pass | src/interactive_request.py:96-129 | one pass of the loop body advances the session exactly as `Step` does |
| Interactive.LoopStep | src/interactive_request.py:97-104 | prompt, cleaned reply and comparison of one step, as `Step` specifies |
| Interactive.GatherFeedback | src/interactive_request.py:122-127 | typed feedback when the mode answer is `y`, the rule-based hint otherwise |

## Left out

- Network and model calls are left out: the OpenAI client, `connect_gpt`, `call_llm`'s
  request and the `backoff` retry decorator. Their replies are parameters, and `call_llm`'s
  `.strip()` is kept.
- File output is left out: the prompt log, `json.dump` in `generate_sql_file`, console output
  and progress bars. None of it feeds back into the results.
- `input()` is left out. The two lines typed at each interactive step are the oracle
  `Setup.userInput`.
- Command-line handling (`argparse`, `__main__` blocks) and `init_client`/`new_directory` are
  left out. They are glue around the modelled functions.
- Opening the database and connection failures are left out. A database is given as its
  catalog rows and query results (`Catalog.Database`). A predicted query that changes the
  database is not modelled: `execute` is a pure function.
- Batch.CollectResponses: the schema text of each database path is the parameter
  `schemaOf`. Reading the file at a path is not modelled; `Schema.SchemaText` is what it
  stands for.
- Interactive.InteractiveLoop requires `maxIter >= 1`. With no iteration the source returns
  an unbound `message` and raises.
- SQLite `REAL` and `BLOB` values are not modelled (`Catalog.SqlValue` has NULL, INTEGER and
  TEXT). Neither is the `str()` of a float.
- Strings.Lower and Strings.Upper map ASCII letters only. Python's full Unicode case mapping
  is not modelled. `str.isspace` is modelled on its full character set.
- Stanza.FetchColumnExamples: `limit` is a `nat`. A negative `LIMIT` (no limit in SQLite)
  is not modelled.
- Batch.DbIdRoundTrip requires an id with no `/` and no `.`. With them, `basename` and
  `.replace('.sqlite', '')` do not give the id back.
- An exception raised by the completion call in `interactive_loop` ends the session: the
  call at src/interactive_request.py:100 is outside any `try`. `Interactive.Setup.reply` is
  total, so that path is not modelled.
- Interactive.StripFences states only that the text does not get longer. The result can
  still contain a fence: removing one occurrence can bring another together.
- Batch.SqlFileMap has no contract of its own; `Batch.SqlFileMapReadBack` states what it
  means.
- Reading a CSV file (decoding, the `DictReader` header logic) is abstracted into
  `Descriptions.Attempt`: the rows each encoding delivers, and how the attempt ended.
