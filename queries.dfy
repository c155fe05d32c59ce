/** The SQL the upload and tagging code sends (subir/query.py, and the
    statements subir/upload.py and subir/tag.py write out inline). A query
    is a value naming the generator that makes it and that generator's
    arguments; `Generated` is the SQL it stands for: literal pieces and
    `%s` placeholders, together with the parameters the driver substitutes
    for the placeholders. The two merge queries are built by the warehouse
    layer from their arguments, so only those arguments are modelled. */
module Queries {
  import opened Wrappers
  import opened Strings
  import opened Dicts

  datatype Segment = Lit(s: string) | Placeholder

  function Render(template: seq<Segment>): string
  {
    if template == [] then ""
    else (match template[0] case Lit(s) => s case Placeholder => "%s") + Render(template[1..])
  }

  function PlaceholderCount(template: seq<Segment>): nat
  {
    if template == [] then 0
    else (if template[0].Placeholder? then 1 else 0) + PlaceholderCount(template[1..])
  }

  /** The placeholders' positions, in order of appearance. */
  function PlaceholderPositions(template: seq<Segment>): (ps: seq<nat>)
    ensures |ps| == PlaceholderCount(template)
    ensures forall k :: 0 <= k < |ps| ==> ps[k] < |template| && template[ps[k]].Placeholder?
    ensures forall k, l :: 0 <= k < l < |ps| ==> ps[k] < ps[l]
  {
    if template == [] then []
    else
      var rest := PlaceholderPositions(template[1..]);
      var shifted := seq(|rest|, k requires 0 <= k < |rest| => rest[k] + 1);
      if template[0].Placeholder? then [0] + shifted else shifted
  }

  /** SQL text with its substitution parameters. */
  datatype Sql = Sql(template: seq<Segment>, params: seq<string>)
  {
    function Text(): string { Render(template) }

    /** One parameter per placeholder. */
    predicate WellFormed() { PlaceholderCount(template) == |params| }
  }

  /** SQL given as plain text, without parameters: `SQL.Query(text)`. */
  function PlainSql(text: string): (q: Sql)
    ensures q.Text() == text && q.WellFormed() && q.params == []
  {
    RenderLit(text);
    Sql([Lit(text)], [])
  }

  lemma RenderLit(text: string)
    ensures Render([Lit(text)]) == text && PlaceholderCount([Lit(text)]) == 0
  {
    assert [Lit(text)][1..] == [];
  }

  /** `upload_table`: the staging table's name, shared by every upload query. */
  function UploadTable(table: string): (name: string)
    ensures |name| == |table| + 11
    ensures name[11..] == table
  {
    "flx_upload_" + table
  }

  /** Distinct targets never share a staging table, and the staging table is
      never the target itself. */
  lemma UploadTableInjective(a: string, b: string)
    ensures UploadTable(a) == UploadTable(b) ==> a == b
    ensures UploadTable(a) != a
  {
  }

  /** The queries, one constructor per generator: the query classes of
      subir/query.py, the inline statements of the tag upload, and any other
      SQL given as text. */
  datatype Query =
    | ColumnTypeQuery(database: string, schema: string, table: string)
    | CreateTableQuery(schema: string, table: string, columnTypes: Dict<string>, readOnlyGroups: seq<string>)
    | DropTableQuery(schema: string, table: string)
    | PrepareUploadTableQuery(schema: string, table: string)
    | AppendUploadQuery(schema: string, table: string)
    | ReplaceUploadQuery(schema: string, table: string)
    | PrepareTagUpload(schema: string, uploadTable: string, table: string)
    | CountTags(schema: string, table: string)
    | BackupTags(schema: string, restoreTable: string, table: string)
    | TruncateTags(schema: string, table: string)
    | PurgeTags(schema: string, table: string, tagColumns: seq<string>)
    | ConvertEmptySubtags(schema: string, table: string, entity: string)
    | DropTagUpload(schema: string, uploadTable: string)
    | Plain(sql: Sql)
  {
    /** `generate_query`: the SQL this query stands for. */
    function Generated(): (q: Sql)
      ensures this.Plain? ==> q == this.sql
      ensures !this.Plain? ==> q.WellFormed()
    {
      match this
      case ColumnTypeQuery(database, schema, table) => ColumnTypeSql(database, schema, table)
      case CreateTableQuery(schema, table, columnTypes, groups) =>
        PlainSql(CreateStatement(schema, table, columnTypes) + Concat(GrantLines(schema, table, groups)))
      case DropTableQuery(schema, table) => PlainSql("drop table " + schema + "." + table)
      case PrepareUploadTableQuery(schema, table) =>
        PlainSql("\ncreate temporary table " + UploadTable(table) + " (like " + schema + "." + table + " including defaults);\n    ")
      case AppendUploadQuery(schema, table) => AppendSql(schema, table)
      case ReplaceUploadQuery(schema, table) => ReplaceSql(schema, table)
      case PrepareTagUpload(schema, uploadTable, table) =>
        PlainSql("\ndrop table if exists " + schema + "." + uploadTable + ";\ncreate table " + schema + "." + uploadTable +
                 " (like " + schema + "." + table + ");\n  ")
      case CountTags(schema, table) => PlainSql("select count(*) from " + schema + "." + table + ";")
      case BackupTags(schema, restoreTable, table) =>
        PlainSql("\ndrop table if exists " + schema + "." + restoreTable + ";\ncreate table " + schema + "." + restoreTable +
                 " (like " + schema + "." + table + ");\ninsert into " + schema + "." + restoreTable +
                 " select * from " + schema + "." + table + ";\n    ")
      case TruncateTags(schema, table) => PlainSql("truncate table " + schema + "." + table)
      case PurgeTags(schema, table, tagColumns) => PurgeSql(schema, table, tagColumns)
      case ConvertEmptySubtags(schema, table, entity) =>
        PlainSql("\nupdate " + schema + "." + table + "\nset " + entity + "_subtag = null\nwhere " + entity + "_subtag = '';\n    ")
      case DropTagUpload(schema, uploadTable) => PlainSql("drop table if exists " + schema + "." + uploadTable + ";")
      case Plain(sql) => sql
    }
  }

  /** The introspection query's literal pieces, each ending where a
      placeholder follows. */
  const CatalogClause := "\nselect column_name, data_type, character_maximum_length\nfrom information_schema.columns\nwhere table_catalog = "
  const SchemaClause := "\nand table_schema = "
  const TableClause := "\nand table_name = "

  /** The introspection query's template: the three clauses, each followed
      by a placeholder, and the closing semicolon. */
  const ColumnTypeTemplate: seq<Segment> :=
    [Lit(CatalogClause), Placeholder, Lit(SchemaClause), Placeholder, Lit(TableClause), Placeholder, Lit(";\n    ")]

  /** The template's placeholders sit right after the catalog, schema and
      table clauses. */
  lemma ColumnTypeTemplatePlaceholders()
    ensures PlaceholderCount(ColumnTypeTemplate) == 3
    ensures PlaceholderPositions(ColumnTypeTemplate) == [1, 3, 5]
  {
    var t := ColumnTypeTemplate;
    assert t[6..][1..] == [];
    assert t[5..][1..] == t[6..];
    assert t[4..][1..] == t[5..];
    assert t[3..][1..] == t[4..];
    assert t[2..][1..] == t[3..];
    assert t[1..][1..] == t[2..];
    assert PlaceholderPositions(t[6..]) == [];
    assert PlaceholderPositions(t[5..]) == [0];
    assert PlaceholderPositions(t[4..]) == [1];
    assert PlaceholderPositions(t[3..]) == [0, 2];
    assert PlaceholderPositions(t[2..]) == [1, 3];
    assert PlaceholderPositions(t[1..]) == [0, 2, 4];
  }

  /** The introspection query: three placeholders, bound to the database,
      the schema and the table, in that order. */
  function ColumnTypeSql(database: string, schema: string, table: string): (q: Sql)
    ensures q.WellFormed() && q.params == [database, schema, table]
  {
    ColumnTypeTemplatePlaceholders();
    Sql(ColumnTypeTemplate, [database, schema, table])
  }

  /** The database, the schema and the table fill the `where` clause's
      placeholders in that order: catalog, schema, table name. */
  lemma ColumnTypeQueryBindsInOrder(database: string, schema: string, table: string)
    ensures var q := ColumnTypeQuery(database, schema, table).Generated();
      && PlaceholderPositions(q.template) == [1, 3, 5]
      && q.template[0] == Lit(CatalogClause)
      && q.template[2] == Lit(SchemaClause)
      && q.template[4] == Lit(TableClause)
      && q.params == [database, schema, table]
  {
    ColumnTypeTemplatePlaceholders();
  }

  function AppendSql(schema: string, table: string): (q: Sql)
    ensures q.WellFormed() && q.params == []
  {
    PlainSql("insert into " + schema + "." + table + " select * from " + UploadTable(table) + ";")
  }

  /** A truncate line, then the append query's text; the append query's
      parameters are taken over. */
  function ReplaceSql(schema: string, table: string): (q: Sql)
    ensures q.WellFormed()
  {
    var append := AppendSql(schema, table);
    PlainSql("\ntruncate table " + schema + "." + table + ";\n" + append.Text() + "\n    ").(params := append.params)
  }

  /** The replace query truncates the target, then runs the append query's
      text with the append query's parameters. */
  lemma ReplaceTruncatesThenAppends(schema: string, table: string)
    ensures var q := ReplaceUploadQuery(schema, table).Generated();
      var append := AppendUploadQuery(schema, table).Generated();
      var lead := "\ntruncate table " + schema + "." + table + ";\n" + append.Text();
      && q.params == append.params
      && |lead| <= |q.Text()| && q.Text()[..|lead|] == lead
  {
    var append := AppendSql(schema, table);
    var text := "\ntruncate table " + schema + "." + table + ";\n" + append.Text() + "\n    ";
    RenderLit(text);
  }

  /** One purge condition: `("<c>" = %s or "<c>" is null)`. */
  function Condition(column: string): seq<Segment>
  {
    [Lit("(\"" + column + "\" = "), Placeholder, Lit(" or \"" + column + "\" is null)")]
  }

  /** The conditions joined by `and `. */
  function Conditions(columns: seq<string>): seq<Segment>
  {
    if columns == [] then []
    else if |columns| == 1 then Condition(columns[0])
    else Conditions(columns[..|columns| - 1]) + [Lit("and ")] + Condition(columns[|columns| - 1])
  }

  lemma {:induction false} ConditionsPlaceholders(columns: seq<string>)
    ensures PlaceholderCount(Conditions(columns)) == |columns|
  {
    if |columns| == 1 {
      ConditionPlaceholder(columns[0]);
    } else if |columns| > 1 {
      var init := columns[..|columns| - 1];
      ConditionsPlaceholders(init);
      ConditionPlaceholder(columns[|columns| - 1]);
      CountAppend(Conditions(init) + [Lit("and ")], Condition(columns[|columns| - 1]));
      CountAppend(Conditions(init), [Lit("and ")]);
      RenderLit("and ");
    }
  }

  lemma ConditionPlaceholder(column: string)
    ensures PlaceholderCount(Condition(column)) == 1
  {
    var c := Condition(column);
    assert c[1..][1..][1..] == [];
    assert PlaceholderCount(c[1..][1..]) == 0;
    assert PlaceholderCount(c[1..]) == 1;
  }

  lemma {:induction false} CountAppend(a: seq<Segment>, b: seq<Segment>)
    ensures PlaceholderCount(a + b) == PlaceholderCount(a) + PlaceholderCount(b)
  {
    if a != [] {
      CountAppend(a[1..], b);
      assert (a + b)[1..] == a[1..] + b;
    } else {
      assert a + b == b;
    }
  }

  /** The purge statement: delete the rows whose tag columns are all empty
      or null; one `''` parameter per tag column. */
  function PurgeSql(schema: string, table: string, tagColumns: seq<string>): (q: Sql)
    ensures q.WellFormed()
    ensures |q.params| == |tagColumns| && forall i :: 0 <= i < |q.params| ==> q.params[i] == ""
  {
    var template := [Lit("\ndelete from " + schema + "." + table + "\nwhere ")] + Conditions(tagColumns) + [Lit(";\n      ")];
    ConditionsPlaceholders(tagColumns);
    CountAppend([Lit("\ndelete from " + schema + "." + table + "\nwhere ")] + Conditions(tagColumns), [Lit(";\n      ")]);
    CountAppend([Lit("\ndelete from " + schema + "." + table + "\nwhere ")], Conditions(tagColumns));
    Sql(template, seq(|tagColumns|, _ => ""))
  }

  /** One row of the introspection result. */
  datatype CatalogRow = CatalogRow(columnName: string, dataType: string, maxLength: Option<nat>)

  /** `str(r[2])`: the length's decimal digits, or `None` when the catalog has no length. */
  function LengthText(maxLength: Option<nat>): (s: string)
    ensures |s| > 0
    ensures maxLength.None? ==> s == "None"
    ensures maxLength.Some? ==>
      && (forall i :: 0 <= i < |s| ==> '0' <= s[i] <= '9')
      && ParseDigits(s) == maxLength.value
  {
    match maxLength
    case None => "None"
    case Some(n) =>
      NatToStringRoundTrip(n);
      NatToString(n)
  }

  /** `f'{r[1]}({r[2]})'` for `character varying`, the type unchanged otherwise:
      between the parentheses stands the length, which reads back as the
      catalog's number, or `None`. */
  function RenderedType(r: CatalogRow): (t: string)
    ensures r.dataType != "character varying" ==> t == r.dataType
    ensures r.dataType == "character varying" ==>
      && |t| > |r.dataType| + 2 && t[..|r.dataType| + 1] == r.dataType + "(" && t[|t| - 1] == ')'
      && var middle := t[|r.dataType| + 1..|t| - 1];
         && (r.maxLength.None? ==> middle == "None")
         && (r.maxLength.Some? ==>
               && (forall i :: 0 <= i < |middle| ==> '0' <= middle[i] <= '9')
               && ParseDigits(middle) == r.maxLength.value)
  {
    if r.dataType == "character varying" then
      var middle := LengthText(r.maxLength);
      var t := r.dataType + "(" + middle + ")";
      assert t[|r.dataType| + 1..|t| - 1] == middle;
      t
    else r.dataType
  }

  function ColumnNames(rows: seq<CatalogRow>): (names: seq<string>)
    ensures |names| == |rows|
    ensures forall i :: 0 <= i < |rows| ==> names[i] == rows[i].columnName
  {
    seq(|rows|, i requires 0 <= i < |rows| => rows[i].columnName)
  }

  function RenderedPairs(rows: seq<CatalogRow>): (pairs: seq<(string, string)>)
    ensures |pairs| == |rows|
    ensures forall i :: 0 <= i < |rows| ==> pairs[i] == (rows[i].columnName, RenderedType(rows[i]))
  {
    seq(|rows|, i requires 0 <= i < |rows| => (rows[i].columnName, RenderedType(rows[i])))
  }

  /** `cursor_to_result`: one entry per column name, in order of first
      appearance; a later row for the same name replaces the earlier value. */
  function CursorToResult(rows: seq<CatalogRow>): (d: Dict<string>)
    ensures DistinctKeys(d)
    ensures forall k :: HasKey(d, k) <==> k in ColumnNames(rows)
  {
    var pairs := RenderedPairs(rows);
    assert Keys(pairs) == ColumnNames(rows);
    FromPairs(pairs)
  }

  /** A column's entry holds the type of the last row that names it. */
  lemma CursorToResultLastWins(rows: seq<CatalogRow>)
    ensures var d := CursorToResult(rows);
      forall i :: 0 <= i < |rows| && rows[i].columnName !in ColumnNames(rows[i + 1..]) ==>
        HasKey(d, rows[i].columnName) && Get(d, rows[i].columnName) == RenderedType(rows[i])
  {
    var pairs := RenderedPairs(rows);
    assert Keys(pairs) == ColumnNames(rows);
    forall i | 0 <= i < |rows| && rows[i].columnName !in ColumnNames(rows[i + 1..])
      ensures pairs[i].0 !in Keys(pairs[i + 1..])
    {
      assert Keys(pairs[i + 1..]) == ColumnNames(rows[i + 1..]);
    }
  }

  /** `'  "<column>" <type>'` */
  function ColumnLine(column: (string, string)): string
  {
    "  \"" + column.0 + "\" " + column.1
  }

  /** The column lines of the create statement, in dictionary order. */
  function ColumnsDefinition(columnTypes: Dict<string>): string
  {
    Join(",\n", seq(|columnTypes|, i requires 0 <= i < |columnTypes| => ColumnLine(columnTypes[i])))
  }

  /** Adding a column to the dictionary adds one separator and its line at the end. */
  lemma ColumnsDefinitionSnoc(columnTypes: Dict<string>, column: (string, string))
    requires columnTypes != []
    ensures ColumnsDefinition(columnTypes + [column]) == ColumnsDefinition(columnTypes) + ",\n" + ColumnLine(column)
  {
    var ext := columnTypes + [column];
    var lines := seq(|columnTypes|, i requires 0 <= i < |columnTypes| => ColumnLine(columnTypes[i]));
    var extLines := seq(|ext|, i requires 0 <= i < |ext| => ColumnLine(ext[i]));
    assert extLines == lines + [ColumnLine(column)];
    JoinSnoc(",\n", lines, ColumnLine(column));
  }

  function CreateStatement(schema: string, table: string, columnTypes: Dict<string>): string
  {
    "\ncreate table " + schema + "." + table + " (\n" + ColumnsDefinition(columnTypes) + "\n);\n    "
  }

  /** The literal pieces of a grant line. */
  const GrantClause := "\ngrant select on table "
  const ToGroupClause := " to group "

  function GrantLine(schema: string, table: string, group: string): string
  {
    GrantClause + schema + "." + table + ToGroupClause + group + ";"
  }

  /** The lines concatenated in order. */
  function Concat(lines: seq<string>): (s: string)
    ensures lines == [] ==> s == ""
  {
    if lines == [] then "" else Concat(lines[..|lines| - 1]) + lines[|lines| - 1]
  }

  /** The grant lines, one per read-only group, in the groups' order. */
  function GrantLines(schema: string, table: string, groups: seq<string>): seq<string>
  {
    seq(|groups|, i requires 0 <= i < |groups| => GrantLine(schema, table, groups[i]))
  }

  /** `CreateTableQuery.generate_query`: the create statement, then one grant
      line appended per read-only group. */
  method GenerateCreateTableQuery(schema: string, table: string, columnTypes: Dict<string>, readOnlyGroups: seq<string>)
    returns (q: Sql)
    ensures q == CreateTableQuery(schema, table, columnTypes, readOnlyGroups).Generated()
  {
    var query := CreateStatement(schema, table, columnTypes);
    query := AppendGrants(query, schema, table, readOnlyGroups);
    q := PlainSql(query);
    CreateTableGenerated(schema, table, columnTypes, readOnlyGroups);
  }

  /** The grant loop: one grant line appended to `query` per group, in order. */
  method AppendGrants(query: string, schema: string, table: string, groups: seq<string>) returns (r: string)
    ensures r == query + Concat(GrantLines(schema, table, groups))
  {
    r := query;
    for i := 0 to |groups|
      invariant r == query + Concat(GrantLines(schema, table, groups[..i]))
    {
      GrantLinesStep(schema, table, groups, i);
      AppendAssociates(query, Concat(GrantLines(schema, table, groups[..i])), GrantLine(schema, table, groups[i]));
      r := r + GrantLine(schema, table, groups[i]);
    }
    assert groups[..|groups|] == groups;
  }

  lemma CreateTableGenerated(schema: string, table: string, columnTypes: Dict<string>, readOnlyGroups: seq<string>)
    ensures CreateTableQuery(schema, table, columnTypes, readOnlyGroups).Generated()
      == PlainSql(CreateStatement(schema, table, columnTypes) + Concat(GrantLines(schema, table, readOnlyGroups)))
  {
  }

  /** One more read-only group adds exactly its grant line at the end. */
  lemma GrantLinesStep(schema: string, table: string, groups: seq<string>, i: nat)
    requires i < |groups|
    ensures Concat(GrantLines(schema, table, groups[..i + 1]))
      == Concat(GrantLines(schema, table, groups[..i])) + GrantLine(schema, table, groups[i])
  {
    var lines := GrantLines(schema, table, groups[..i + 1]);
    assert lines[..i] == GrantLines(schema, table, groups[..i]);
    assert lines[i] == GrantLine(schema, table, groups[i]);
  }

  /** The arguments of the warehouse layer's merge: update the target's rows
      that match the source on the join columns, insert the others. */
  datatype MergeQuery = MergeQuery(
    joinColumns: seq<string>, updateColumns: seq<string>,
    sourceTable: string, targetTable: string,
    sourceSchema: Option<string>, targetSchema: Option<string>)

  /** The arguments of the warehouse layer's merge-replace. */
  datatype MergeReplaceQuery = MergeReplaceQuery(
    joinColumns: seq<string>,
    sourceTable: string, targetTable: string,
    sourceSchema: Option<string>, targetSchema: Option<string>)

  /** The merge from the staging table, which lives in the session's
      temporary schema, into `schema.table`; the staging table is never the
      target. */
  function MergeUploadQuery(joinColumns: seq<string>, updateColumns: seq<string>, schema: string, table: string): (m: MergeQuery)
    ensures m.joinColumns == joinColumns && m.updateColumns == updateColumns
    ensures m.sourceTable == UploadTable(table) && m.sourceSchema == None
    ensures m.targetTable == table && m.targetSchema == Some(schema)
    ensures m.sourceTable != m.targetTable
  {
    MergeQuery(joinColumns, updateColumns, UploadTable(table), table, None, Some(schema))
  }

  /** The merge-replace from the staging table into `schema.table`, with
      the same table placement as the merge. */
  function MergeReplaceUploadQuery(joinColumns: seq<string>, schema: string, table: string): (m: MergeReplaceQuery)
    ensures m.joinColumns == joinColumns
    ensures m.sourceTable == UploadTable(table) && m.sourceSchema == None
    ensures m.targetTable == table && m.targetSchema == Some(schema)
    ensures m.sourceTable != m.targetTable
  {
    MergeReplaceQuery(joinColumns, UploadTable(table), table, None, Some(schema))
  }
}
