/** The uploader (subir/upload.py): the name and type gates, the column
    filter between a CSV and the target table, the choice of the combine
    query and the staging-table lifecycle around it. */
module Upload {
  import opened Wrappers
  import opened Strings
  import opened Dicts
  import opened Base
  import Queries
  import opened Warehouse

  datatype UploadError =
    | InvalidTableName(table: string)
    | InvalidColumnName(column: string)
    | InvalidColumnType(columnType: string)
    | UnrecognizedType(typeString: string)
    | MissingColumns(columns: seq<string>)
    | LayerFailure(action: Action)

  /** One column of a parsed CSV: its header, pandas' dtype name and its values. */
  datatype CsvColumn = CsvColumn(name: string, dtype: string, cells: seq<Cell>)

  /** `t in [t.value for t in ColumnType]` */
  predicate IsColumnTypeValue(t: string)
  {
    FromValue(t).Some?
  }

  predicate ValidEntry(entry: (string, string))
  {
    SanitizedColumnName(entry.0) == entry.0 && IsColumnTypeValue(entry.1)
  }

  /** What `validate_column_types` accepts. */
  predicate ValidColumnTypes(columnTypes: Dict<string>)
  {
    forall i :: 0 <= i < |columnTypes| ==> ValidEntry(columnTypes[i])
  }

  /** The error for an entry that fails the gate: the name is checked first. */
  function EntryError(entry: (string, string)): UploadError
  {
    if SanitizedColumnName(entry.0) != entry.0 then InvalidColumnName(entry.0) else InvalidColumnType(entry.1)
  }

  /** `validate_column_types`: raises on the first entry, in dictionary order,
      whose name is not sanitized or whose type is not a column type string. */
  method ValidateColumnTypes(columnTypes: Dict<string>) returns (r: Result<(), UploadError>)
    ensures r.Success? <==> ValidColumnTypes(columnTypes)
    ensures r.Failure? ==>
      exists i :: 0 <= i < |columnTypes| && !ValidEntry(columnTypes[i]) &&
        (forall j :: 0 <= j < i ==> ValidEntry(columnTypes[j])) && r.error == EntryError(columnTypes[i])
  {
    for i := 0 to |columnTypes|
      invariant forall j :: 0 <= j < i ==> ValidEntry(columnTypes[j])
    {
      var (c, t) := columnTypes[i];
      if SanitizedColumnName(c) != c {
        return Failure(InvalidColumnName(c));
      }
      if !IsColumnTypeValue(t) {
        return Failure(InvalidColumnType(t));
      }
    }
    return Success(());
  }

  function SanitizedNames(columns: seq<CsvColumn>): (names: seq<string>)
    ensures |names| == |columns|
    ensures forall i :: 0 <= i < |columns| ==> names[i] == SanitizedColumnName(columns[i].name)
  {
    seq(|columns|, i requires 0 <= i < |columns| => SanitizedColumnName(columns[i].name))
  }

  /** The warehouse string of the type inferred for one column. */
  function InferredType(column: CsvColumn): string
  {
    FromPdColumn(column.dtype, column.cells).Value()
  }

  function InferredPairs(columns: seq<CsvColumn>): (pairs: seq<(string, string)>)
    ensures |pairs| == |columns|
    ensures forall i :: 0 <= i < |columns| ==> pairs[i] == (SanitizedColumnName(columns[i].name), InferredType(columns[i]))
  {
    seq(|columns|, i requires 0 <= i < |columns| => (SanitizedColumnName(columns[i].name), InferredType(columns[i])))
  }

  /** `get_table_structure`: a type per sanitized column name; when two
      headers sanitize to the same name the later column's type wins. */
  function GetTableStructure(columns: seq<CsvColumn>): (d: Dict<string>)
    ensures DistinctKeys(d)
    ensures forall k :: HasKey(d, k) <==> k in SanitizedNames(columns)
    ensures forall i :: 0 <= i < |d| ==> d[i] in InferredPairs(columns)
    ensures forall i :: 0 <= i < |columns| && SanitizedColumnName(columns[i].name) !in SanitizedNames(columns[i + 1..]) ==>
      HasKey(d, SanitizedColumnName(columns[i].name)) && Get(d, SanitizedColumnName(columns[i].name)) == InferredType(columns[i])
  {
    var pairs := InferredPairs(columns);
    SuffixNames(columns);
    FromPairs(pairs)
  }

  /** The structure lists the sanitized names in the order they first occur in the CSV. */
  lemma TableStructureOrder(columns: seq<CsvColumn>)
    ensures FirstAppearanceOrder(GetTableStructure(columns), SanitizedNames(columns))
  {
    var pairs := InferredPairs(columns);
    assert Keys(pairs) == SanitizedNames(columns);
    FromPairsOrder(pairs);
  }

  lemma SuffixNames(columns: seq<CsvColumn>)
    ensures forall i :: 0 <= i <= |columns| ==> Keys(InferredPairs(columns)[i..]) == SanitizedNames(columns[i..])
  {
    forall i | 0 <= i <= |columns| ensures Keys(InferredPairs(columns)[i..]) == SanitizedNames(columns[i..]) {
    }
  }

  /** Whatever the CSV, the inferred structure passes the column gate. */
  lemma TableStructureIsValid(columns: seq<CsvColumn>)
    ensures ValidColumnTypes(GetTableStructure(columns))
  {
    var d := GetTableStructure(columns);
    forall i | 0 <= i < |d| ensures ValidEntry(d[i]) {
      var j :| 0 <= j < |columns| && InferredPairs(columns)[j] == d[i];
      ColumnNameIdempotent(columns[j].name);
      FromQueryResultRoundTrip(FromPdColumn(columns[j].dtype, columns[j].cells));
      assert FromValue(InferredType(columns[j])).Some?;
    }
  }

  /** `create_table_query`: the table name gate, then the column gate, then
      the generator. The schema name is not checked. */
  method CreateTableQuery(schemaName: string, tableName: string, columnTypes: Dict<string>, readOnlyGroups: seq<string>)
    returns (r: Result<Queries.Query, UploadError>)
    ensures SanitizedRelationName(tableName) != tableName ==> r == Failure(InvalidTableName(tableName))
    ensures SanitizedRelationName(tableName) == tableName ==> (r.Success? <==> ValidColumnTypes(columnTypes))
    ensures r.Failure? && SanitizedRelationName(tableName) == tableName ==>
      exists i :: 0 <= i < |columnTypes| && !ValidEntry(columnTypes[i]) && r.error == EntryError(columnTypes[i])
    ensures r.Success? ==> r.value == Queries.CreateTableQuery(schemaName, tableName, columnTypes, readOnlyGroups)
  {
    if SanitizedRelationName(tableName) != tableName {
      return Failure(InvalidTableName(tableName));
    }
    var valid := ValidateColumnTypes(columnTypes);
    if valid.Failure? {
      return Failure(valid.error);
    }
    return Success(Queries.CreateTableQuery(schemaName, tableName, columnTypes, readOnlyGroups));
  }

  /** `create_table_query_text_from_stream`: inference, then the create
      statement without grants. Only the table name can make it fail. */
  method CreateTableQueryTextFromStream(schemaName: string, tableName: string, columns: seq<CsvColumn>)
    returns (r: Result<string, UploadError>)
    ensures r.Success? <==> SanitizedRelationName(tableName) == tableName
    ensures r.Failure? ==> r.error == InvalidTableName(tableName)
    ensures r.Success? ==> r.value == Queries.CreateStatement(schemaName, tableName, GetTableStructure(columns))
  {
    var columnTypes := GetTableStructure(columns);
    TableStructureIsValid(columns);
    var q :- CreateTableQuery(schemaName, tableName, columnTypes, []);
    var sql := Queries.GenerateCreateTableQuery(q.schema, q.table, q.columnTypes, q.readOnlyGroups);
    assert Queries.GrantLines(schemaName, tableName, []) == [];
    return Success(sql.Text());
  }

  /** `delete_table_query` */
  function DeleteTableQuery(schemaName: string, tableName: string): (r: Result<Queries.Query, UploadError>)
    ensures r.Failure? <==> SanitizedRelationName(tableName) != tableName
    ensures r.Failure? ==> r.error == InvalidTableName(tableName)
    ensures r.Success? ==> r.value == Queries.DropTableQuery(schemaName, tableName)
  {
    if SanitizedRelationName(tableName) != tableName then Failure(InvalidTableName(tableName))
    else Success(Queries.DropTableQuery(schemaName, tableName))
  }

  /** The column types read from the catalog answer, in dictionary order;
      the first unreadable type string raises. */
  function ParseColumnTypes(columnResults: Dict<string>): (r: Result<Dict<ColumnType>, UploadError>)
    ensures r.Success? ==> |r.value| == |columnResults| && forall i :: 0 <= i < |r.value| ==> r.value[i].0 == columnResults[i].0
    ensures r.Failure? ==> r.error.UnrecognizedType?
  {
    if columnResults == [] then Success([])
    else
      match FromQueryResult(columnResults[0].1)
      case Failure(t) => Failure(UnrecognizedType(t))
      case Success(t) =>
        match ParseColumnTypes(columnResults[1..])
        case Failure(e) => Failure(e)
        case Success(rest) => Success([(columnResults[0].0, t)] + rest)
  }

  /** Reading succeeds exactly when every type string reads back as a column
      type, and then each column keeps its name and gets that type; otherwise
      the error names the first type string, in dictionary order, that does
      not. */
  lemma {:induction false} ParseColumnTypesMeaning(columnResults: Dict<string>)
    ensures var r := ParseColumnTypes(columnResults);
      && (r.Success? <==> forall i :: 0 <= i < |columnResults| ==> FromQueryResult(columnResults[i].1).Success?)
      && (r.Success? ==>
            forall i :: 0 <= i < |columnResults| ==> FromQueryResult(columnResults[i].1) == Success(r.value[i].1))
      && (r.Failure? ==>
            exists i :: 0 <= i < |columnResults| && FromQueryResult(columnResults[i].1).Failure? &&
              (forall j :: 0 <= j < i ==> FromQueryResult(columnResults[j].1).Success?) &&
              r.error == UnrecognizedType(columnResults[i].1))
  {
    if columnResults != [] {
      ParseColumnTypesMeaning(columnResults[1..]);
      assert forall j :: 1 <= j < |columnResults| ==> columnResults[j] == columnResults[1..][j - 1];
      var r := ParseColumnTypes(columnResults);
      if r.Failure? && FromQueryResult(columnResults[0].1).Success? {
        var rest := ParseColumnTypes(columnResults[1..]);
        var k :| 0 <= k < |columnResults[1..]| && FromQueryResult(columnResults[1..][k].1).Failure? &&
              (forall j :: 0 <= j < k ==> FromQueryResult(columnResults[1..][j].1).Success?) &&
              rest.error == UnrecognizedType(columnResults[1..][k].1);
        assert FromQueryResult(columnResults[k + 1].1).Failure?;
      }
    }
  }

  /** The catalog reports a `character varying` column with its length; the
      rendering reads back as short text for 256, medium text for 8192, and
      long text for any other length or none. */
  lemma VaryingCatalogTypeParses(row: Queries.CatalogRow)
    requires row.dataType == "character varying"
    ensures FromQueryResult(Queries.RenderedType(row)) == Success(VaryingType(row.maxLength))
  {
    var t := Queries.RenderedType(row);
    var middle := Queries.LengthText(row.maxLength);
    assert "character varying" + "(" == VaryingOpen;
    assert t == VaryingOpen + middle + ")";
    VaryingValues();
    VaryingLengthDigits();
    if exists c: ColumnType :: c.Value() == t {
      var c: ColumnType :| c.Value() == t;
      FromQueryResultRoundTrip(c);
      VaryingMemberLength(c, row.maxLength, middle);
    } else {
      FromQueryResultPrefixes(t);
      VaryingStartsWith(middle);
    }
  }

  /** The type a `character varying` column of the given catalog length reads back as. */
  function VaryingType(maxLength: Option<nat>): ColumnType
  {
    if maxLength == Some(256) then ShortText
    else if maxLength == Some(8192) then MediumText
    else LongText
  }

  const VaryingOpen := "character varying("

  /** The three text types' strings, as an opening, a length and a closing parenthesis. */
  lemma VaryingValues()
    ensures ShortText.Value() == VaryingOpen + "256" + ")"
    ensures MediumText.Value() == VaryingOpen + "8192" + ")"
    ensures LongText.Value() == VaryingOpen + "32768" + ")"
  {
  }

  lemma VaryingStartsWith(middle: string)
    ensures StartsWith(VaryingOpen + middle + ")", "character varying")
  {
    assert (VaryingOpen + middle + ")")[..17] == VaryingOpen[..17];
  }

  /** The text between a fixed opening and closing is determined by the whole. */
  lemma SameMiddle(open: string, a: string, b: string, close: string)
    requires open + a + close == open + b + close
    ensures a == b
  {
    var s := open + a + close;
    assert s[|open|..|s| - |close|] == a;
    assert (open + b + close)[|open|..|s| - |close|] == b;
  }

  /** A rendered length that spells a member's string is that member's length. */
  lemma VaryingMemberLength(c: ColumnType, maxLength: Option<nat>, middle: string)
    requires middle == Queries.LengthText(maxLength)
    requires c.Value() == VaryingOpen + middle + ")"
    ensures c == VaryingType(maxLength)
  {
    VaryingValues();
    VaryingLengthDigits();
    ValueFirstChar(c);
    assert (VaryingOpen + middle + ")")[0] == 'c';
    if c == ShortText {
      SameMiddle(VaryingOpen, middle, "256", ")");
      LengthTextNames(maxLength, 256);
    } else if c == MediumText {
      SameMiddle(VaryingOpen, middle, "8192", ")");
      LengthTextNames(maxLength, 8192);
    } else {
      assert c == LongText;
      SameMiddle(VaryingOpen, middle, "32768", ")");
      LengthTextNames(maxLength, 32768);
    }
  }

  /** A rendered length that reads as the digits of `n` comes from the length `n`. */
  lemma LengthTextNames(maxLength: Option<nat>, n: nat)
    requires Queries.LengthText(maxLength) == NatToString(n)
    ensures maxLength == Some(n)
  {
    assert NatToString(n)[0] != 'N';
    if maxLength.Some? {
      NatToStringInjective(maxLength.value, n);
    }
  }

  /** Only the text types' strings begin with `c`. */
  lemma ValueFirstChar(c: ColumnType)
    ensures c.Value()[0] == 'c' <==> c.IsText()
  {
  }

  /** The catalog lengths of the text types, in decimal. */
  lemma VaryingLengthDigits()
    ensures NatToString(256) == "256" && NatToString(8192) == "8192" && NatToString(32768) == "32768"
  {
    assert DigitChar(2) == '2' && DigitChar(5) == '5' && DigitChar(6) == '6';
    assert DigitChar(8) == '8' && DigitChar(1) == '1' && DigitChar(9) == '9';
    assert DigitChar(3) == '3' && DigitChar(7) == '7';
    assert NatToString(2) == "2";
    assert NatToString(25) == NatToString(2) + ['5'];
    assert NatToString(256) == NatToString(25) + ['6'];
    assert NatToString(8) == "8";
    assert NatToString(81) == NatToString(8) + ['1'];
    assert NatToString(819) == NatToString(81) + ['9'];
    assert NatToString(8192) == NatToString(819) + ['2'];
    assert NatToString(3) == "3";
    assert NatToString(32) == NatToString(3) + ['2'];
    assert NatToString(327) == NatToString(32) + ['7'];
    assert NatToString(3276) == NatToString(327) + ['6'];
    assert NatToString(32768) == NatToString(3276) + ['8'];
  }

  /** The column types of the target as read from its catalog answer; the
      column names are distinct, being the keys of the dictionary built from
      the cursor. */
  function TableTypes(catalog: seq<Queries.CatalogRow>): (r: Result<Dict<ColumnType>, UploadError>)
    ensures r.Success? ==> Distinct(Keys(r.value))
  {
    var d := Queries.CursorToResult(catalog);
    assert DistinctKeys(d);
    ParseColumnTypes(d)
  }

  /** `get_column_types`: the table name gate before any query; then the
      introspection query, whose reply is `catalog`, read as column types. */
  method GetColumnTypes(layer: Layer, database: string, schemaName: string, tableName: string, catalog: seq<Queries.CatalogRow>)
    returns (r: Result<Dict<ColumnType>, UploadError>)
    modifies layer
    ensures SanitizedRelationName(tableName) != tableName ==>
      r == Failure(InvalidTableName(tableName)) && layer.log == old(layer.log)
    ensures SanitizedRelationName(tableName) == tableName ==>
      layer.log == old(layer.log) + [Run(Queries.ColumnTypeQuery(database, schemaName, tableName))]
    ensures SanitizedRelationName(tableName) == tableName ==>
      r == if Run(Queries.ColumnTypeQuery(database, schemaName, tableName)) in layer.failing
           then Failure(LayerFailure(Run(Queries.ColumnTypeQuery(database, schemaName, tableName))))
           else TableTypes(catalog)
  {
    if SanitizedRelationName(tableName) != tableName {
      return Failure(InvalidTableName(tableName));
    }
    var query := Run(Queries.ColumnTypeQuery(database, schemaName, tableName));
    var ok := layer.Perform(query);
    if !ok {
      return Failure(LayerFailure(query));
    }
    return TableTypes(catalog);
  }

  /** The elements of `names` whose membership in `other` is `inOther`, in
      their original order. */
  function Select(names: seq<string>, other: seq<string>, inOther: bool): (r: seq<string>)
    ensures forall c :: c in r <==> c in names && (c in other) == inOther
    ensures Distinct(names) ==> Distinct(r)
    ensures |r| <= |names|
  {
    if names == [] then []
    else
      var rest := Select(names[..|names| - 1], other, inOther);
      var last := names[|names| - 1];
      assert names == names[..|names| - 1] + [last];
      if (last in other) == inOther then rest + [last] else rest
  }

  /** Selecting from a concatenation selects from each part, so the kept names
      keep their relative order. */
  lemma {:induction false} SelectAppend(a: seq<string>, b: seq<string>, other: seq<string>, inOther: bool)
    ensures Select(a + b, other, inOther) == Select(a, other, inOther) + Select(b, other, inOther)
    decreases |b|
  {
    if b == [] {
      assert a + b == a;
    } else {
      var init := b[..|b| - 1];
      var last := b[|b| - 1];
      assert (a + b)[..|a + b| - 1] == a + init;
      assert (a + b)[|a + b| - 1] == last;
      SelectAppend(a, init, other, inOther);
      var tail := if (last in other) == inOther then [last] else [];
      AppendAssociates(Select(a, other, inOther), Select(init, other, inOther), tail);
    }
  }

  /** One name is kept exactly when its membership is as asked. */
  lemma SelectSingle(x: string, other: seq<string>, inOther: bool)
    ensures Select([x], other, inOther) == if (x in other) == inOther then [x] else []
  {
    assert [x][..0] == [];
  }

  /** The combine strategies, in priority order. */
  datatype Strategy = ReplaceAll | MergeReplaceKeys | MergeKeys | AppendRows

  /** Exactly one strategy, with priority replace > merge-replace > merge on
      non-empty merge columns > append. */
  function ChooseStrategy(replace: bool, mergeReplace: bool, mergeColumnNames: seq<string>): (s: Strategy)
    ensures s == ReplaceAll <==> replace
    ensures s == MergeReplaceKeys <==> !replace && mergeReplace
    ensures s == MergeKeys <==> !replace && !mergeReplace && mergeColumnNames != []
    ensures s == AppendRows <==> !replace && !mergeReplace && mergeColumnNames == []
  {
    if replace then ReplaceAll
    else if mergeReplace then MergeReplaceKeys
    else if mergeColumnNames != [] then MergeKeys
    else AppendRows
  }

  /** The merge's update columns: the frame's columns that are not merge
      columns, in frame order. */
  function UpdateColumns(frameColumns: seq<string>, mergeColumnNames: seq<string>): (r: seq<string>)
    ensures forall c :: c in r <==> c in frameColumns && c !in mergeColumnNames
  {
    Select(frameColumns, mergeColumnNames, false)
  }

  /** The update columns of a concatenation are those of each part, in frame order. */
  lemma UpdateColumnsAppend(a: seq<string>, b: seq<string>, mergeColumnNames: seq<string>)
    ensures UpdateColumns(a + b, mergeColumnNames) == UpdateColumns(a, mergeColumnNames) + UpdateColumns(b, mergeColumnNames)
  {
    SelectAppend(a, b, mergeColumnNames, false);
  }

  function CombineAction(schemaName: string, tableName: string, mergeColumnNames: seq<string>, frameColumns: seq<string>,
                         replace: bool, mergeReplace: bool): Action
  {
    match ChooseStrategy(replace, mergeReplace, mergeColumnNames)
    case ReplaceAll => Run(Queries.ReplaceUploadQuery(schemaName, tableName))
    case MergeReplaceKeys => RunMergeReplace(Queries.MergeReplaceUploadQuery(mergeColumnNames, schemaName, tableName))
    case MergeKeys =>
      RunMerge(Queries.MergeUploadQuery(mergeColumnNames, UpdateColumns(frameColumns, mergeColumnNames), schemaName, tableName))
    case AppendRows => Run(Queries.AppendUploadQuery(schemaName, tableName))
  }

  /** Every combine action reads the staging table of the target. */
  lemma CombineReadsStagingTable(schemaName: string, tableName: string, mergeColumnNames: seq<string>,
                                 frameColumns: seq<string>, replace: bool, mergeReplace: bool)
    ensures match CombineAction(schemaName, tableName, mergeColumnNames, frameColumns, replace, mergeReplace)
      case RunMerge(m) => m.sourceTable == Queries.UploadTable(tableName) && m.targetTable == tableName
      case RunMergeReplace(m) => m.sourceTable == Queries.UploadTable(tableName) && m.targetTable == tableName
      case Run(q) => q == Queries.ReplaceUploadQuery(schemaName, tableName) || q == Queries.AppendUploadQuery(schemaName, tableName)
      case _ => false
  {
  }

  /** The four warehouse calls of one staged upload. */
  datatype Staging = Staging(prepare: Action, insert: Action, combine: Action, drop: Action)

  function StagingFor(schemaName: string, tableName: string, mergeColumnNames: seq<string>, frameColumns: seq<string>,
                      rowCount: nat, transforms: Dict<PdDtype>, options: InsertOptions, replace: bool, mergeReplace: bool): Staging
  {
    Staging(
      Run(Queries.PrepareUploadTableQuery(schemaName, tableName)),
      InsertDataFrame(None, Queries.UploadTable(tableName), frameColumns, rowCount, Some(transforms), options),
      CombineAction(schemaName, tableName, mergeColumnNames, frameColumns, replace, mergeReplace),
      Run(Queries.Plain(Queries.PlainSql("drop table " + Queries.UploadTable(tableName) + ";"))))
  }

  datatype Run = Outcome(result: Result<(), UploadError>, actions: seq<Action>)

  /** What one staged upload does, given which warehouse calls raise:
      connect, autocommit and prepare outside the `try`; insert and combine
      inside it; the drop and the disconnect in the `finally`. A raise in
      the `finally` replaces the pending one and ends it there. */
  function StagedRun(s: Staging, failing: set<Action>): Run
  {
    if Connect in failing then Outcome(Failure(LayerFailure(Connect)), [Connect])
    else if EnableAutocommit in failing then Outcome(Failure(LayerFailure(EnableAutocommit)), [Connect, EnableAutocommit])
    else if s.prepare in failing then Outcome(Failure(LayerFailure(s.prepare)), [Connect, EnableAutocommit, s.prepare])
    else
      var body := if s.insert in failing then [s.insert] else [s.insert, s.combine];
      var pending := if s.insert in failing then Some(s.insert) else if s.combine in failing then Some(s.combine) else None;
      var throughDrop := [Connect, EnableAutocommit, s.prepare] + body + [s.drop];
      if s.drop in failing then Outcome(Failure(LayerFailure(s.drop)), throughDrop)
      else if Disconnect in failing then Outcome(Failure(LayerFailure(Disconnect)), throughDrop + [Disconnect])
      else if pending.Some? then Outcome(Failure(LayerFailure(pending.value)), throughDrop + [Disconnect])
      else Outcome(Success(()), throughDrop + [Disconnect])
  }

  /** Once the staging table is prepared, the drop runs on every path: it
      comes after the prepare and the insert, only a disconnect may follow
      it, and the disconnect happens exactly when the drop succeeds. */
  lemma StagingTableAlwaysDropped(s: Staging, failing: set<Action>)
    requires Connect !in failing && EnableAutocommit !in failing && s.prepare !in failing
    ensures var acts := StagedRun(s, failing).actions;
      && |acts| >= 5 && acts[2] == s.prepare && acts[3] == s.insert
      && (if s.drop in failing then acts[|acts| - 1] == s.drop
          else acts[|acts| - 2] == s.drop && acts[|acts| - 1] == Disconnect)
  {
  }

  /** The combine runs exactly once when the insert succeeded, right after
      it, and not at all when the insert raised. */
  lemma CombineRunsOnceAfterInsert(s: Staging, failing: set<Action>)
    requires Connect !in failing && EnableAutocommit !in failing && s.prepare !in failing
    ensures var acts := StagedRun(s, failing).actions;
      if s.insert in failing then acts[4] == s.drop && |acts| <= 6
      else acts[4] == s.combine && acts[5] == s.drop && |acts| <= 7
  {
  }

  /** An upload succeeds exactly when none of its seven calls raises, and
      then it makes exactly those calls in order. */
  lemma StagedRunSucceeds(s: Staging, failing: set<Action>)
    ensures var run := StagedRun(s, failing);
      run.result.Success? <==>
        (forall a :: a in [Connect, EnableAutocommit, s.prepare, s.insert, s.combine, s.drop, Disconnect] ==> a !in failing)
    ensures StagedRun(s, failing).result.Success? ==>
      StagedRun(s, failing).actions == [Connect, EnableAutocommit, s.prepare, s.insert, s.combine, s.drop, Disconnect]
  {
  }

  /** A failed upload reports the call that raised, and that call is in the log. */
  lemma StagedRunReportsFailure(s: Staging, failing: set<Action>)
    ensures var run := StagedRun(s, failing);
      run.result.Failure? ==>
        run.result.error.LayerFailure? &&
        run.result.error.action in failing && run.result.error.action in run.actions
  {
  }

  /** `upload_data_frame`, run on the staging statements `s` built by
      `StagingFor`: the warehouse sees exactly the actions of `StagedRun`
      and the result is its result. */
  method UploadDataFrame(layer: Layer, s: Staging) returns (r: Result<(), UploadError>)
    modifies layer
    ensures r == StagedRun(s, layer.failing).result
    ensures layer.log == old(layer.log) + StagedRun(s, layer.failing).actions
  {
    var ok := layer.Perform(Connect);
    if !ok { return Failure(LayerFailure(Connect)); }
    ok := layer.Perform(EnableAutocommit);
    if !ok { return Failure(LayerFailure(EnableAutocommit)); }
    ok := layer.Perform(s.prepare);
    if !ok { return Failure(LayerFailure(s.prepare)); }
    ghost var setup := [Connect, EnableAutocommit, s.prepare];
    assert layer.log == old(layer.log) + setup;

    // try
    var pending: Option<Action> := None;
    ghost var body: seq<Action> := [s.insert];
    ok := layer.Perform(s.insert);
    if ok {
      ok := layer.Perform(s.combine);
      body := [s.insert, s.combine];
      if !ok { pending := Some(s.combine); }
    } else {
      pending := Some(s.insert);
    }
    assert layer.log == old(layer.log) + (setup + body);
    // finally
    ok := layer.Perform(s.drop);
    ghost var throughDrop := setup + body + [s.drop];
    assert layer.log == old(layer.log) + throughDrop;
    if !ok { return Failure(LayerFailure(s.drop)); }
    ok := layer.Perform(Disconnect);
    assert layer.log == old(layer.log) + (throughDrop + [Disconnect]);
    if !ok { return Failure(LayerFailure(Disconnect)); }
    if pending.Some? { return Failure(LayerFailure(pending.value)); }
    return Success(());
  }

  /** The pandas dtype each table column is read as: same columns, same
      order, each mapped through `PdType`. */
  function TypeTransforms(columnTypes: Dict<ColumnType>): (d: Dict<PdDtype>)
    ensures |d| == |columnTypes|
    ensures forall i :: 0 <= i < |d| ==> d[i].0 == columnTypes[i].0 && d[i].1 == PdType(columnTypes[i].1)
  {
    seq(|columnTypes|, i requires 0 <= i < |columnTypes| => (columnTypes[i].0, PdType(columnTypes[i].1)))
  }

  /** The CSV's columns after the sanitizing rename. */
  function SanitizedHeader(header: seq<string>): (names: seq<string>)
    ensures |names| == |header|
    ensures forall i :: 0 <= i < |header| ==> names[i] == SanitizedColumnName(header[i])
  {
    seq(|header|, i requires 0 <= i < |header| => SanitizedColumnName(header[i]))
  }

  /** The table columns the CSV lacks, as `sorted` lists them. */
  function MissingColumnList(tableColumns: seq<string>, kept: seq<string>): (r: seq<string>)
    requires Distinct(tableColumns)
    ensures StrictlySorted(r)
    ensures forall c :: c in r <==> c in tableColumns && c !in kept
  {
    var missing := Select(tableColumns, kept, false);
    var sorted := Sort(missing);
    assert forall c :: c in sorted <==> c in multiset(sorted);
    sorted
  }

  /** The column filter of `upload`: the sanitized CSV columns that are table
      columns, in CSV order; or, when some table column is not among the
      sanitized CSV columns, the error listing all such columns sorted. */
  function FilterColumns(header: seq<string>, tableColumns: seq<string>): (r: Result<seq<string>, UploadError>)
    requires Distinct(tableColumns)
    ensures r.Success? <==> forall c :: c in tableColumns ==> c in SanitizedHeader(header)
    ensures r.Success? ==> r.value == Select(SanitizedHeader(header), tableColumns, true)
    ensures r.Success? ==> forall c :: c in r.value <==> c in SanitizedHeader(header) && c in tableColumns
    ensures r.Failure? ==>
      && r.error.MissingColumns?
      && r.error.columns != []
      && StrictlySorted(r.error.columns)
      && forall c :: c in r.error.columns <==> c in tableColumns && c !in SanitizedHeader(header)
  {
    var kept := Select(SanitizedHeader(header), tableColumns, true);
    var missing := MissingColumnList(tableColumns, kept);
    if missing != [] then
      assert missing[0] in tableColumns && missing[0] !in SanitizedHeader(header);
      Failure(MissingColumns(missing))
    else
      assert forall c :: c in tableColumns ==> c !in missing;
      Success(kept)
  }

  /** What `upload` does once the table's column types are known: filter the
      CSV's columns against the table's, then run the staged upload with the
      kept columns; a missing column stops it before any warehouse call. */
  function ColumnsRun(schemaName: string, tableName: string, mergeColumnNames: seq<string>, header: seq<string>,
                      rowCount: nat, columnTypes: Dict<ColumnType>, replace: bool, options: InsertOptions,
                      mergeReplace: bool, failing: set<Action>): Run
    requires Distinct(Keys(columnTypes))
  {
    match FilterColumns(header, Keys(columnTypes))
    case Failure(e) => Outcome(Failure(e), [])
    case Success(kept) =>
      StagedRun(StagingFor(schemaName, tableName, mergeColumnNames, kept, rowCount,
                           TypeTransforms(columnTypes), options, replace, mergeReplace), failing)
  }

  /** What `upload` does as a whole: the table-name gate, the catalog query,
      the reading of its answer, then `ColumnsRun`. */
  function UploadRun(database: string, schemaName: string, tableName: string, mergeColumnNames: seq<string>,
                     header: seq<string>, rowCount: nat, catalog: seq<Queries.CatalogRow>, replace: bool,
                     options: InsertOptions, mergeReplace: bool, failing: set<Action>): Run
  {
    var query := Run(Queries.ColumnTypeQuery(database, schemaName, tableName));
    if SanitizedRelationName(tableName) != tableName then Outcome(Failure(InvalidTableName(tableName)), [])
    else if query in failing then Outcome(Failure(LayerFailure(query)), [query])
    else match TableTypes(catalog)
      case Failure(e) => Outcome(Failure(e), [query])
      case Success(columnTypes) =>
        var rest := ColumnsRun(schemaName, tableName, mergeColumnNames, header, rowCount, columnTypes,
                               replace, options, mergeReplace, failing);
        Outcome(rest.result, [query] + rest.actions)
  }

  /** The part of `upload` after the column types are known. */
  method UploadColumns(layer: Layer, schemaName: string, tableName: string, mergeColumnNames: seq<string>,
                       header: seq<string>, rowCount: nat, columnTypes: Dict<ColumnType>,
                       replace: bool, options: InsertOptions, mergeReplace: bool)
    returns (r: Result<(), UploadError>)
    requires Distinct(Keys(columnTypes))
    modifies layer
    ensures var run := ColumnsRun(schemaName, tableName, mergeColumnNames, header, rowCount, columnTypes,
                                  replace, options, mergeReplace, layer.failing);
      r == run.result && layer.log == old(layer.log) + run.actions
  {
    var transforms := TypeTransforms(columnTypes);
    var kept :- FilterColumns(header, Keys(columnTypes));
    var staging := StagingFor(schemaName, tableName, mergeColumnNames, kept, rowCount, transforms, options, replace, mergeReplace);
    r := UploadDataFrame(layer, staging);
  }

  /** When the name fails the gate, the catalog query raises or its answer
      cannot be read, `upload` stops there with that error. */
  lemma UploadRunBeforeColumns(database: string, schemaName: string, tableName: string, mergeColumnNames: seq<string>,
                               header: seq<string>, rowCount: nat, catalog: seq<Queries.CatalogRow>, replace: bool,
                               options: InsertOptions, mergeReplace: bool, failing: set<Action>)
    ensures var query := Run(Queries.ColumnTypeQuery(database, schemaName, tableName));
      var run := UploadRun(database, schemaName, tableName, mergeColumnNames, header, rowCount, catalog, replace, options,
                           mergeReplace, failing);
      && (SanitizedRelationName(tableName) != tableName ==> run == Outcome(Failure(InvalidTableName(tableName)), []))
      && (SanitizedRelationName(tableName) == tableName && query in failing ==>
            run == Outcome(Failure(LayerFailure(query)), [query]))
      && (SanitizedRelationName(tableName) == tableName && query !in failing && TableTypes(catalog).Failure? ==>
            run == Outcome(Failure(TableTypes(catalog).error), [query]))
  {
  }

  /** Once the name passed the gate and the catalog query and its reading
      succeeded, `upload` goes on with `ColumnsRun` after the catalog query. */
  lemma UploadRunAfterCatalog(database: string, schemaName: string, tableName: string, mergeColumnNames: seq<string>,
                              header: seq<string>, rowCount: nat, catalog: seq<Queries.CatalogRow>, replace: bool,
                              options: InsertOptions, mergeReplace: bool, failing: set<Action>)
    requires SanitizedRelationName(tableName) == tableName
    requires Run(Queries.ColumnTypeQuery(database, schemaName, tableName)) !in failing
    requires TableTypes(catalog).Success?
    ensures var rest := ColumnsRun(schemaName, tableName, mergeColumnNames, header, rowCount, TableTypes(catalog).value,
                                   replace, options, mergeReplace, failing);
      UploadRun(database, schemaName, tableName, mergeColumnNames, header, rowCount, catalog, replace, options,
                mergeReplace, failing)
        == Outcome(rest.result, [Run(Queries.ColumnTypeQuery(database, schemaName, tableName))] + rest.actions)
  {
  }

  /** `upload`: the warehouse sees exactly the actions of `UploadRun`, and the
      result is its result. */
  method Upload(layer: Layer, database: string, schemaName: string, tableName: string, mergeColumnNames: seq<string>,
                header: seq<string>, rowCount: nat, catalog: seq<Queries.CatalogRow>,
                replace: bool, options: InsertOptions, mergeReplace: bool)
    returns (r: Result<(), UploadError>)
    modifies layer
    ensures var run := UploadRun(database, schemaName, tableName, mergeColumnNames, header, rowCount, catalog,
                                 replace, options, mergeReplace, layer.failing);
      r == run.result && layer.log == old(layer.log) + run.actions
  {
    var types := GetColumnTypes(layer, database, schemaName, tableName, catalog);
    ghost var query := Run(Queries.ColumnTypeQuery(database, schemaName, tableName));
    if types.Failure? {
      UploadRunBeforeColumns(database, schemaName, tableName, mergeColumnNames, header, rowCount, catalog,
                             replace, options, mergeReplace, layer.failing);
      return Failure(types.error);
    }
    assert SanitizedRelationName(tableName) == tableName && query !in layer.failing && TableTypes(catalog) == types;
    r := UploadColumns(layer, schemaName, tableName, mergeColumnNames, header, rowCount, types.value, replace, options, mergeReplace);
    ghost var rest := ColumnsRun(schemaName, tableName, mergeColumnNames, header, rowCount, types.value,
                                 replace, options, mergeReplace, layer.failing);
    UploadRunAfterCatalog(database, schemaName, tableName, mergeColumnNames, header, rowCount, catalog,
                          replace, options, mergeReplace, layer.failing);
    AppendAssociates(old(layer.log), [query], rest.actions);
  }

  /** A table name that fails the gate is refused before any warehouse call. */
  lemma UploadRefusesInvalidTableName(database: string, schemaName: string, tableName: string, mergeColumnNames: seq<string>,
                                      header: seq<string>, rowCount: nat, catalog: seq<Queries.CatalogRow>, replace: bool,
                                      options: InsertOptions, mergeReplace: bool, failing: set<Action>)
    ensures var run := UploadRun(database, schemaName, tableName, mergeColumnNames, header, rowCount, catalog,
                                 replace, options, mergeReplace, failing);
      && (SanitizedRelationName(tableName) != tableName <==> run.result == Failure(InvalidTableName(tableName)))
      && (SanitizedRelationName(tableName) != tableName ==> run.actions == [])
  {
    var types := TableTypes(catalog);
    if SanitizedRelationName(tableName) == tableName && types.Success? {
      var kept := FilterColumns(header, Keys(types.value));
      if kept.Success? {
        StagedRunReportsFailure(StagingFor(schemaName, tableName, mergeColumnNames, kept.value, rowCount,
                                           TypeTransforms(types.value), options, replace, mergeReplace), failing);
      }
    }
  }

  /** A CSV that lacks table columns is refused after the catalog query and
      before any staging; the error lists exactly the lacking columns, sorted,
      and it is the only way `upload` reports missing columns. */
  lemma UploadRefusesMissingColumns(database: string, schemaName: string, tableName: string, mergeColumnNames: seq<string>,
                                    header: seq<string>, rowCount: nat, catalog: seq<Queries.CatalogRow>, replace: bool,
                                    options: InsertOptions, mergeReplace: bool, failing: set<Action>)
    ensures var run := UploadRun(database, schemaName, tableName, mergeColumnNames, header, rowCount, catalog,
                                 replace, options, mergeReplace, failing);
      run.result.Failure? && run.result.error.MissingColumns? ==>
        && run.actions == [Run(Queries.ColumnTypeQuery(database, schemaName, tableName))]
        && TableTypes(catalog).Success?
        && run.result.error.columns != []
        && StrictlySorted(run.result.error.columns)
        && forall c :: c in run.result.error.columns <==> c in Keys(TableTypes(catalog).value) && c !in SanitizedHeader(header)
  {
    var run := UploadRun(database, schemaName, tableName, mergeColumnNames, header, rowCount, catalog,
                         replace, options, mergeReplace, failing);
    if run.result.Failure? && run.result.error.MissingColumns? {
      var columnTypes := TableTypes(catalog).value;
      var kept := FilterColumns(header, Keys(columnTypes));
      if kept.Success? {
        StagedRunReportsFailure(StagingFor(schemaName, tableName, mergeColumnNames, kept.value, rowCount,
                                           TypeTransforms(columnTypes), options, replace, mergeReplace), failing);
      }
    }
  }

  /** A successful upload read the catalog answer, kept every table column
      among the CSV's columns, and then made exactly the seven calls of its
      staged upload, right after the catalog query. */
  lemma UploadSucceeds(database: string, schemaName: string, tableName: string, mergeColumnNames: seq<string>,
                       header: seq<string>, rowCount: nat, catalog: seq<Queries.CatalogRow>, replace: bool,
                       options: InsertOptions, mergeReplace: bool, failing: set<Action>)
    ensures var run := UploadRun(database, schemaName, tableName, mergeColumnNames, header, rowCount, catalog,
                                 replace, options, mergeReplace, failing);
      run.result.Success? ==>
        && SanitizedRelationName(tableName) == tableName
        && TableTypes(catalog).Success?
        && (forall c :: c in Keys(TableTypes(catalog).value) ==> c in SanitizedHeader(header))
        && var s := StagingFor(schemaName, tableName, mergeColumnNames,
                               Select(SanitizedHeader(header), Keys(TableTypes(catalog).value), true), rowCount,
                               TypeTransforms(TableTypes(catalog).value), options, replace, mergeReplace);
           run.actions == [Run(Queries.ColumnTypeQuery(database, schemaName, tableName)),
                           Connect, EnableAutocommit, s.prepare, s.insert, s.combine, s.drop, Disconnect]
  {
    var run := UploadRun(database, schemaName, tableName, mergeColumnNames, header, rowCount, catalog,
                         replace, options, mergeReplace, failing);
    var query := Run(Queries.ColumnTypeQuery(database, schemaName, tableName));
    var types := TableTypes(catalog);
    UploadRunBeforeColumns(database, schemaName, tableName, mergeColumnNames, header, rowCount, catalog,
                           replace, options, mergeReplace, failing);
    if run.result.Success? {
      assert SanitizedRelationName(tableName) == tableName && query !in failing && types.Success?;
      UploadRunAfterCatalog(database, schemaName, tableName, mergeColumnNames, header, rowCount, catalog,
                            replace, options, mergeReplace, failing);
      ColumnsRunSucceeds(schemaName, tableName, mergeColumnNames, header, rowCount, types.value,
                         replace, options, mergeReplace, failing);
    }
  }

  /** The part of `UploadSucceeds` after the catalog answer: a successful
      `ColumnsRun` kept every table column and made the seven staged calls. */
  lemma ColumnsRunSucceeds(schemaName: string, tableName: string, mergeColumnNames: seq<string>, header: seq<string>,
                           rowCount: nat, columnTypes: Dict<ColumnType>, replace: bool, options: InsertOptions,
                           mergeReplace: bool, failing: set<Action>)
    requires Distinct(Keys(columnTypes))
    ensures var rest := ColumnsRun(schemaName, tableName, mergeColumnNames, header, rowCount, columnTypes,
                                   replace, options, mergeReplace, failing);
      rest.result.Success? ==>
        && (forall c :: c in Keys(columnTypes) ==> c in SanitizedHeader(header))
        && var s := StagingFor(schemaName, tableName, mergeColumnNames,
                               Select(SanitizedHeader(header), Keys(columnTypes), true), rowCount,
                               TypeTransforms(columnTypes), options, replace, mergeReplace);
           rest.actions == [Connect, EnableAutocommit, s.prepare, s.insert, s.combine, s.drop, Disconnect]
  {
    var kept := FilterColumns(header, Keys(columnTypes));
    if kept.Success? {
      var s := StagingFor(schemaName, tableName, mergeColumnNames, kept.value, rowCount,
                          TypeTransforms(columnTypes), options, replace, mergeReplace);
      StagedRunSucceeds(s, failing);
    }
  }
}
