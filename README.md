# subir, modelled in Dafny

subir loads CSV files into a Redshift warehouse and keeps its ad-tagging
tables up to date. This project models its core:

- **Column typing and name sanitising** (`subir/base.py`): the seven column
  types and their warehouse strings, type inference from a pandas column,
  reading a type back from the catalog, the date-pattern scan, the pandas
  conversion per type, and the two name sanitisers.
- **Query generation** (`subir/query.py`): the catalog introspection query,
  the create/drop statements, the staging-table statements (prepare,
  append, replace) and the merge and merge-replace queries. Each query is
  SQL text as a template of literal segments and placeholders, plus its
  parameters. `cursor_to_result` is modelled over an insertion-ordered
  dictionary.
- **The uploader** (`subir/upload.py`): the table-name and column gates, the
  structure inferred from a CSV, the column filter between a CSV and the
  target table, the choice of combine strategy, and the staging-table
  lifecycle with its `try`/`finally`.
- **Tagging** (`subir/tag.py`):
  - the three entities and their columns and table names;
  - the three cleaning passes on the tag frame (id decoding, tag stripping,
    duplicate resolution), as a class updated in place;
  - `count_tags` and `upload_tags` as sequences of warehouse calls;
  - the effect of the purge statements on a tag table;
  - the entry point `Tagger.apply_tags`.

The warehouse layer (`data_layer`) is a class whose methods append each call
to a log. Which calls raise is a set fixed when the layer is made. Every
method that talks to the warehouse is proved to leave in the log exactly the
calls of a specification function. That function describes the source's
control flow: where it stops on a raise, what the `finally` still runs, and
what is skipped after a prompt is declined.

Modules: `Wrappers` (Option, Result), `Strings` (join, decimal rendering,
code-point order, sorting), `Dicts` (Python's insertion-ordered dict),
`Base`, `Queries`, `Warehouse`, `Upload`, `Entities`, `TagFrames`,
`TagUpload`, `TagPurge`, `TagApply`.

## Model

| member | source | states |
|---|---|---|
| Base.ValueInjective | subir/base.py:9-16 | distinct column types carry distinct warehouse strings |
| Base.FromValue | subir/base.py:42 | `ColumnType(value)` finds the member whose string is exactly `value`, and fails only when no member has that string |
| Base.FromQueryResult | subir/base.py:39-52 | reading a catalog type fails, re-raising the value, exactly when it is no member's string and starts with none of the five recognised prefixes |
| Base.FromQueryResultRoundTrip | subir/base.py:40-42 | every member's own string reads back as that member |
| Base.FromQueryResultPrefixes | subir/base.py:43-51 | a non-member string is read by prefix: `character varying` and `USER-DEFINED` give long text, `integer` integer, `numeric` decimal, `timestamp` date |
| Base.MaxLength | subir/base.py:28 | the longest rendered value bounds every value and is reached by one of them; a column without values has none |
| Base.MatchesPrefixExtends | subir/base.py:61 | `re.match` is not anchored at the end: a value whose prefix matches a date pattern still matches with anything appended |
| Base.PdColumnIsDate | subir/base.py:54-63 | the scan answers true exactly when some value is not blank and every non-blank value matches one of the two date patterns |
| Base.FromPdColumn | subir/base.py:18-37 | int64, float64 and bool map to integer, decimal and boolean, and an unknown dtype to long text; an object column is long text above 2048 characters, date or short text below 64 depending on the scan, and medium text otherwise, including when it has no values |
| Base.FromPdColumnOrderInvariant | subir/base.py:18-37 | the inferred type depends only on the multiset of the column's values, not on their order |
| Base.PdType | subir/base.py:65-76 | exactly the three text types convert to `object` |
| Base.PdTypeDistinguishesNonText | subir/base.py:65-76 | each non-text type has a conversion no other type shares |
| Base.SanitizedRelationName | subir/base.py:78-79 | sanitising keeps the name's length |
| Base.RelationNameShape | subir/base.py:78-79 | each character is lower-cased if that lands in `[a-z0-9_]` and is `_` otherwise |
| Base.RelationNameFixedPoint | subir/base.py:78-79 | a name passes the table-name gate exactly when all its characters are in `[a-z0-9_]` |
| Base.RelationNameIdempotent | subir/base.py:78-79 | sanitising a sanitised relation name changes nothing |
| Base.SanitizedColumnName | subir/base.py:81-82 | sanitising keeps the name's length |
| Base.ColumnNameShape | subir/base.py:81-82 | each character is lower-cased if that lands in `[a-z0-9_ ]` and is `_` otherwise |
| Base.ColumnNameFixedPoint | subir/base.py:81-82 | a name passes the column-name gate exactly when all its characters are in `[a-z0-9_ ]` |
| Base.ColumnNameIdempotent | subir/base.py:81-82 | sanitising a sanitised column name changes nothing |
| Base.RelationFixedPointIsColumnFixedPoint | subir/base.py:78-82 | a valid table name is also a valid column name |
| Strings.Join | subir/query.py:50 | joining no parts gives the empty string, and joining one part gives that part |
| Strings.JoinSnoc | subir/query.py:50 | one more part adds one separator and that part at the end |
| Strings.JoinLength | subir/query.py:50 | a join's length is the parts' lengths plus one separator between each pair of neighbours |
| Strings.NatToStringRoundTrip | subir/query.py:32 | the decimal rendering of a length reads back as that number |
| Strings.LessTransitive | subir/upload.py:71 | Python's string order is transitive |
| Strings.LessTotal | subir/upload.py:71 | any two distinct strings are ordered one way |
| Strings.LessAsymmetric | subir/upload.py:71 | Python's string order is asymmetric |
| Strings.Sort | subir/upload.py:71 | `sorted` of a set of names is strictly increasing and a permutation of it |
| Dicts.Put | subir/query.py:31-34 | a dict write overwrites a present key in place and appends a new key at the end, and keys stay distinct |
| Dicts.GetPut | subir/query.py:31-34 | a read after a write sees the value written, and other keys are untouched |
| Dicts.FromPairs | subir/query.py:31-34 | a dict comprehension has one entry per key, every entry is one of its pairs, and a key's value comes from its last pair |
| Dicts.FirstIndex | subir/query.py:31-34 | the position of a key's first occurrence holds that key, and no earlier position does |
| Dicts.FromPairsOrder | subir/query.py:31-34 | a dict comprehension lists its keys in the order of their first appearance among the pairs |
| Queries.PlaceholderPositions | subir/query.py:15-27 | the positions are the template's placeholder indices in increasing order, one per placeholder |
| Queries.PlainSql | subir/upload.py:93 | SQL given as text renders as that text and has no parameters |
| Queries.UploadTable | subir/query.py:80-82 | the staging name is the target's name behind an 11-character prefix |
| Queries.UploadTableInjective | subir/query.py:80-82 | distinct targets never share a staging table, and the staging table is never the target |
| Queries.Query.Generated | subir/query.py:15-145 | every generated query has one parameter per placeholder |
| Queries.ColumnTypeQueryBindsInOrder | subir/query.py:15-27 | the three placeholders follow the catalog, schema and table-name clauses and are bound to the database, the schema and the table, in that order |
| Queries.ReplaceTruncatesThenAppends | subir/query.py:97-104 | the replace query's text begins with the truncate and then the append query's text, and it takes the append query's parameters |
| Queries.PurgeSql | subir/tag.py:188-200 | the purge statement has one `''` parameter per tag column and one placeholder for each |
| Queries.ConditionsPlaceholders | subir/tag.py:189-193 | the joined conditions hold one placeholder per tag column |
| Queries.LengthText | subir/query.py:32 | a missing length renders as `None`, and a length as decimal digits that read back as that length |
| Queries.RenderedType | subir/query.py:32 | a `character varying` type is rendered as the type, `(`, the length and `)`, where the length is `None` when the catalog gives none and otherwise digits that read back as the catalog length; any other type is unchanged |
| Queries.CursorToResult | subir/query.py:29-34 | the result has one entry per column name the catalog reports |
| Queries.CursorToResultLastWins | subir/query.py:29-34 | a column's entry holds the rendered type of the last row naming it |
| Queries.ColumnsDefinitionSnoc | subir/query.py:50 | one more column adds `,\n` and its line at the end of the column definitions |
| Queries.GenerateCreateTableQuery | subir/query.py:49-57 | the loop leaves the create statement followed by one grant line per read-only group, in the groups' order |
| Queries.AppendGrants | subir/query.py:56-57 | the loop appends one `grant select ... to group` line per group, in the groups' order, after the text it was given |
| Queries.MergeUploadQuery | subir/query.py:106-125 | the merge reads the staging table from the session schema and writes `schema.table`, with the given join and update columns |
| Queries.MergeReplaceUploadQuery | subir/query.py:127-145 | the merge-replace reads the staging table from the session schema and writes `schema.table`, with the given join columns |
| Upload.ValidateColumnTypes | subir/upload.py:19-25 | the gate passes exactly when every name is already sanitised and every type is a member's string; otherwise it raises on the first bad entry, and for that entry the name is checked before the type |
| Upload.GetTableStructure | subir/upload.py:11-17 | the structure has one entry per sanitised column name, holding the type inferred for the last CSV column with that name |
| Upload.TableStructureOrder | subir/upload.py:11-17 | the structure lists the sanitised names in the order of their first occurrence in the CSV |
| Upload.TableStructureIsValid | subir/upload.py:11-25 | any inferred structure passes the column gate |
| Upload.CreateTableQuery | subir/upload.py:31-35 | a bad table name raises first; otherwise the query is made exactly when the columns pass the gate |
| Upload.CreateTableQueryTextFromStream | subir/upload.py:27-29 | the text is the create statement of the inferred structure, and it fails only on a bad table name |
| Upload.DeleteTableQuery | subir/upload.py:37-40 | the drop query is made exactly when the table name passes the gate |
| Upload.ParseColumnTypesMeaning | subir/upload.py:54-57 | reading the catalog answer succeeds exactly when every type string reads back; on success every entry is read in order, and on failure the first unreadable string is reported |
| Upload.VaryingCatalogTypeParses | subir/query.py:32 | a `character varying` row the catalog reports reads back as short text for length 256, medium text for length 8192, and long text for any other length or none |
| Upload.GetColumnTypes | subir/upload.py:50-57 | a bad table name raises before any warehouse call; otherwise the catalog query is run and its answer is read |
| Upload.Select | subir/upload.py:68 | the filter keeps exactly the names whose membership in the other list is as asked, never more than it was given, and repeats none when the input repeats none |
| Upload.SelectAppend | subir/upload.py:68 | filtering a concatenation filters each part and concatenates the results, so kept names keep their relative order |
| Upload.SelectSingle | subir/upload.py:68 | a single name is kept exactly when its membership is as asked |
| Upload.ChooseStrategy | subir/upload.py:110-118 | exactly one strategy is chosen, with priority replace, then merge-replace, then merge on non-empty merge columns, then append |
| Upload.UpdateColumns | subir/upload.py:115 | the update columns are the frame's columns that are not merge columns |
| Upload.UpdateColumnsAppend | subir/upload.py:115 | the update columns of a concatenated frame are those of each part, so they follow the frame's order |
| Upload.CombineReadsStagingTable | subir/upload.py:110-120 | every combine action reads the target's staging table and writes the target |
| Upload.StagingTableAlwaysDropped | subir/upload.py:95-123 | once the staging table is prepared, the drop runs on every path, after the prepare and the insert; only a disconnect may follow it |
| Upload.CombineRunsOnceAfterInsert | subir/upload.py:99-120 | the combine runs exactly once, right after a successful insert, and never after a failed one |
| Upload.StagedRunSucceeds | subir/upload.py:86-123 | a staged upload succeeds exactly when none of its seven calls raises, and then it makes all seven in order |
| Upload.StagedRunReportsFailure | subir/upload.py:86-123 | a failed upload reports a call that raised, and that call is in the log |
| Upload.UploadDataFrame | subir/upload.py:86-123 | the warehouse log grows by exactly the staged run's calls, and the result is the staged run's result |
| Upload.TypeTransforms | subir/upload.py:61-64 | each table column keeps its place and gets its type's pandas conversion |
| Upload.MissingColumnList | subir/upload.py:69-71 | the missing columns are the table columns the CSV lacks, sorted |
| Upload.FilterColumns | subir/upload.py:66-72 | the filter raises exactly when some table column is missing, listing all missing columns sorted; otherwise it gives `Select` of the sanitised CSV columns against the table columns: those that are table columns, in CSV order by `Upload.SelectAppend` |
| Upload.UploadColumns | subir/upload.py:66-84 | the warehouse log grows by exactly the calls of the part of `upload` after the catalog read |
| Upload.UploadRunBeforeColumns | subir/upload.py:59-64 | a bad name raises without a warehouse call; a raising or unreadable catalog query ends the upload after that one call |
| Upload.UploadRunAfterCatalog | subir/upload.py:59-84 | after a readable catalog answer, the upload continues with the column filter and the staged upload |
| Upload.Upload | subir/upload.py:59-84 | the warehouse log grows by exactly the calls of the whole `upload` |
| Upload.UploadRefusesInvalidTableName | subir/upload.py:51-52 | the upload ends in the table-name error exactly when the name fails the gate, and then no warehouse call is made |
| Upload.UploadRefusesMissingColumns | subir/upload.py:69-71 | a CSV lacking table columns is refused after only the catalog query, naming those columns sorted |
| Upload.UploadSucceeds | subir/upload.py:59-123 | a successful upload passed the name gate, read the catalog, found every table column in the CSV and ran the staged upload to completion |
| Entities.FromValue | subir/tag.py:223 | `EntityType(name)` succeeds exactly for `ad`, `adset` and `campaign`, giving the entity with that value |
| Entities.FromTagData | subir/tag.py:16-18 | the entity is `ad` when there is an `ad_id` column, otherwise `adset` when there is an `adset_tag` column, otherwise `campaign` |
| Entities.FromTagDataRecognisesColumns | subir/tag.py:16-35 | a frame with exactly an entity's columns is recognised as that entity |
| Entities.ColumnsLayout | subir/tag.py:20-47 | the six columns come in order (company, app, the identifier pair, the tag pair) and are distinct; the merge updates the tags and the upload group |
| Entities.TableNamesDistinct | subir/tag.py:49-64 | the nine table, upload and restore names are pairwise distinct |
| TagFrames.KeepDecodedMembers | subir/tag.py:66-69 | a row is in the decoded frame exactly when some input row's id decodes to a value and the row is that input row with the decoded id |
| TagFrames.FirstMalformed | subir/tag.py:66-69 | the index of the first id the decoder rejects, or the frame's length when there is none |
| TagFrames.TagFrame.ConvertIdColumns | subir/tag.py:66-69 | a malformed id raises and leaves the frame as it was; otherwise the frame becomes its decodable rows with decoded ids |
| TagFrames.StripShape | subir/tag.py:76 | a stripped string is a contiguous slice of the original without surrounding whitespace, and the characters cut are whitespace |
| TagFrames.StripIdempotent | subir/tag.py:76 | stripping twice is stripping once |
| TagFrames.StrippedTagsClean | subir/tag.py:71-81 | after the pass both tags are strings without surrounding whitespace, a missing tag has become `''`, the other columns are unchanged, and a second pass changes nothing |
| TagFrames.TagFrame.StripEmptyTags | subir/tag.py:71-81 | every row keeps its place, with its tags filled and stripped |
| TagFrames.KeptPrefixUnique | subir/tag.py:131 | after `drop_duplicates` no two rows share the subset's key |
| TagFrames.DeduplicatedKeepsEveryKey | subir/tag.py:91 | keeping the first or the last row leaves every key of the input present |
| TagFrames.NoConflictMeansUnique | subir/tag.py:96-99 | a frame without rows duplicated on the identifier has unique identifiers |
| TagFrames.UniqueIdentifierMakesUniqueRows | subir/tag.py:91-96 | unique identifiers imply unique identifier-and-tag keys |
| TagFrames.DeduplicatedFromInput | subir/tag.py:91 | every kept row is a row of the input |
| TagFrames.ExactDuplicatesKeepIdentifiers | subir/tag.py:91 | dropping exact duplicates loses no identifier |
| TagFrames.ResolutionKeepsIdentifiers | subir/tag.py:126-131 | resolving by the first or the last row still has every identifier of the input |
| TagFrames.DropDuplicatesOutcome | subir/tag.py:89-132 | it answers false exactly when an interactive run is aborted over a conflict; when it answers true the identifiers are unique; every row left is an input row; and unless conflicts are skipped, every identifier survives |
| TagFrames.TagFrame.IsKept | subir/tag.py:131 | the scan decides whether a row survives `drop_duplicates` for the subset and keep mode |
| TagFrames.TagFrame.DropDuplicatesBy | subir/tag.py:91 | the in-place drop leaves exactly the rows that survive |
| TagFrames.TagFrame.HasConflicts | subir/tag.py:96-98 | the scan answers whether two rows share an identifier |
| TagFrames.TagFrame.DropDuplicates | subir/tag.py:89-132 | the answer and the frame left behind are those of the corrected `drop_duplicates` |
| TagFrames.DropDuplicatesAsWritten | subir/tag.py:89-132 | when the code as written does not raise, it agrees with the corrected `drop_duplicates` |
| TagFrames.AdsetConflictRaises | subir/tag.py:101-102 | two adset rows sharing an identifier make the interactive code as written raise, while the corrected code resolves them |
| TagUpload.ExecuteIsPrefix | subir/tag.py:134-212 | statements without `try` make a prefix of their plan: all of it when none raises, otherwise up to the first call that raises, which is reported |
| TagUpload.ExecuteWithin | subir/tag.py:142-212 | every call the warehouse sees during a run is a call of the plan |
| TagUpload.CountExistingTags | subir/tag.py:134-140 | `count_tags` connects, counts and disconnects, stopping at a raise; it returns the reported count when none raises |
| TagUpload.TagMerge | subir/tag.py:178-186 | the merge joins on channel and the entity id, updates both tags and the upload group, and works between the upload table and the tag table in the same schema |
| TagUpload.TagUploadPlanOrder | subir/tag.py:142-212 | the calls come in order: prepare and commit, then the insert while disconnected, then the count, the backup, the truncate, the merge, the purge pair, the drop of the upload table, and a final commit |
| TagUpload.TagUploadPlanBackupRule | subir/tag.py:166-176 | the backup happens exactly when the tag table has rows, and the truncate exactly when it has rows and the upload replaces |
| TagUpload.TagUploadOutcome | subir/tag.py:142-212 | a backup or truncate seen by the warehouse implies its condition; success makes every planned call, ending with the drop and a commit; a failure stops at the call that raised |
| TagUpload.UploadTags | subir/tag.py:142-212 | the warehouse log grows by exactly the calls of `upload_tags` up to the first raise, and the result says which call raised |
| TagPurge.PurgeSelectsEmptyTags | subir/tag.py:188-201 | the purge's where clause, with its `''` parameters bound, holds on a row exactly when both tags are empty or null |
| TagPurge.PurgeMembers | subir/tag.py:194-201 | the delete keeps exactly the rows with a non-empty tag, and adds none |
| TagPurge.PurgeFixed | subir/tag.py:194-201 | a table without empty-tag rows loses nothing to the delete |
| TagPurge.PurgeThenConvertClean | subir/tag.py:188-208 | after the purge no row has all-empty tags or an empty subtag; each remaining row is a kept row with its empty subtag nulled; each row with a tag survives |
| TagPurge.PurgeThenConvertIdempotent | subir/tag.py:188-208 | purging a second time changes nothing |
| TagApply.RenamedColumn | subir/tag.py:217-221 | `Unnamed: 0` becomes `''`, `company` becomes `company_identifier`, every other name is unchanged, and a name ends up `company_identifier` exactly when it was `company` or already `company_identifier` |
| TagApply.CompanyFillsIdentifier | subir/tag.py:221-224 | a CSV's first `company` column, renamed to `company_identifier`, fills each row's company cell (missing when the record is too short), provided the CSV has no `company_identifier` column of its own |
| TagApply.CellOf | subir/tag.py:224 | projecting onto a column takes the cell under its first header label, and a missing column gives missing values |
| TagApply.Basename | subir/tag.py:241 | the upload group is the path's last `/`-free suffix, and the whole path when it has no `/` |
| TagApply.ChooseEntity | subir/tag.py:223 | `auto` recognises the entity from the header; any other name must be an entity value |
| TagApply.CleanedRows | subir/tag.py:225-233 | the cleaning passes leave rows with decoded ids and stripped tags, and unique identifiers when the run goes on |
| TagApply.PreparedRowsClean | subir/tag.py:223-233 | every row of a cleaned frame is ready for upload, and when the run goes on no two rows share an identifier |
| TagApply.AbortReachesNoWarehouse | subir/tag.py:227-234 | an interactive run aborted over a conflict returns 0 without any warehouse call |
| TagApply.WarehouseZero | subir/tag.py:243-250 | on a non-empty frame, 0 means the prompt was declined, after only the count reached the warehouse |
| TagApply.ZeroUploadsNothing | subir/tag.py:215-257 | a run that returns 0 inserted nothing and merged nothing |
| TagApply.UploadRunPositive | subir/tag.py:252-257 | a successful upload answers the frame's row count, after inserting the frame and merging; without raises it succeeds |
| TagApply.PositiveUploadsFrame | subir/tag.py:215-257 | a positive answer is the cleaned frame's row count, and the insert of its rows stamped with the file's base name and the merge were made; without raises a confirmed non-empty frame is uploaded |
| TagApply.PrepareFrame | subir/tag.py:216-233 | the in-place cleaning of the frame gives what `TagApply.PrepareTags`, the functional model of the cleaning passes, gives |
| TagApply.ApplyTags | subir/tag.py:215-257 | the result and the warehouse log are those of `TagApply.ApplyTagsRun`, the functional model of `apply_tags` |

## Left out

- Reading CSVs. `pd.read_csv` and its dtype inference are not modelled. A CSV
  column arrives as its header, pandas' dtype name and its cells. A tag CSV
  arrives as a header and records of text cells.
- pandas' header mangling of repeated labels is not modelled. Instead,
  `apply_tags` raises `DuplicateLabels` whenever the renamed header repeats a
  label, which is where pandas would refuse to project the frame.
- `json.loads` is a parameter, the decoder. It answers a value, null or
  malformed.
- The two `click.prompt` answers are inputs (the resolution and the
  confirmation). Every `print` is left out.
- The conflict report of `drop_duplicates` (`write_output` and lines
  101-119 of `subir/tag.py`, which write CSV files) is left out. Only its
  read of the id column is kept, in `TagFrames.DropDuplicatesAsWritten`.
- Counts are inputs. The row counts the count query reports, before and
  after the upload, are parameters. The final count is only printed by the
  source and is not used.
- The warehouse layer's internals are not modelled: connection options,
  the merge's SQL, type coercion during insertion. A warehouse call is an
  action in a log, and whether it raises is a fixed set of actions. So
  identical calls share their fate: the second connect and commit of
  `upload_tags`, the count of `count_tags` and the one in the plan, and the
  interactive recount after the upload. As a result, once the count before
  the upload has succeeded, the recount cannot raise: the branch of
  `TagApply.UploadRun` where the recount raises is never reached from
  `TagApply.WarehouseRun`.
- `get_column_types_result` reads the database name from the layer's
  connection options. In the model the database name is a parameter.
- Base.SanitizedRelationName: lower-cases ASCII letters only. Python's
  `lower()` also maps non-ASCII letters, which then become `_` anyway,
  unless they lower-case into ASCII. Python's `lower()` can also change a
  name's length (`'İ'` lower-cases to two characters), so "keeps the name's
  length" holds of the model only.
- Base.SanitizedColumnName: the same ASCII-only `lower()` as above, with the
  same caveat on length.
- Upload.FilterColumns: when two CSV headers sanitise to the same name and
  some other CSV column is filtered out, the source's rebuild of the frame
  with the kept columns (subir/upload.py:72) raises, because pandas cannot
  reindex a frame whose labels repeat. The model keeps the repeated name
  and goes on with the upload.
- TagApply.ApplyTags: uses the corrected duplicate pass
  (`TagFrames.TagFrame.DropDuplicates`). For an interactive `adset` or
  `campaign` upload with conflicting tags, the source raises at
  subir/tag.py:102 (see Findings), while the model shows the prompt. The
  same holds of TagApply.PrepareFrame and TagApply.PrepareTags.
- The CLI (`run.py`) and packaging are outside the core.

Behaviour the model keeps exactly as the code has it, though a reader might expect otherwise:

- An object column without values has a NaN maximum. Both length tests are
  then false, so the column is medium text, not long or short text.
- In `upload_data_frame`, a drop that raises in the `finally` skips the
  disconnect.
- `upload_tags` ends with a commit and never disconnects.
- `convert_id_columns` raises on a malformed JSON id. It drops only rows
  whose id is missing or decodes to null.
- Rows whose tags are both empty are kept by the cleaning passes. Only the
  optional purge removes such rows from the warehouse table.

## Findings

| source | as written | input that shows it | evidently intended | confidence | as-written member | corrected member |
|---|---|---|---|---|---|---|
| subir/tag.py:102 | the interactive conflict report reads `duplicate_rows.ad_id`, a column only `ad` frames have | an interactive `adset` (or `campaign`) upload with two rows sharing channel and id but with different tags raises before the prompt is shown | read the entity's own id column, so the prompt can resolve the conflict for every entity | not executed | TagFrames.AdsetConflictRaises | TagFrames.TagFrame.DropDuplicates |
