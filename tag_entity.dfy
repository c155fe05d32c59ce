/** The three tagged entities (subir/tag.py, `EntityType`): how an entity is
    recognised from a tag CSV's columns, the columns of its tag table, and
    the names of that table and of its upload and restore companions. */
module Entities {
  import opened Wrappers
  import opened Strings

  datatype EntityType = Ad | Adset | Campaign
  {
    /** The enum value, which prefixes the entity's column names. */
    function Value(): string
    {
      match this
      case Ad => "ad"
      case Adset => "adset"
      case Campaign => "campaign"
    }

    function IdColumn(): string { Value() + "_id" }
    function TagColumn(): string { Value() + "_tag" }
    function SubtagColumn(): string { Value() + "_subtag" }

    /** The key a tag row is identified by. */
    function IdentifierColumns(): seq<string> { ["channel", IdColumn()] }

    /** The tag table's columns, in the order the tag frame is cut to. */
    function Columns(): seq<string>
    {
      ["company_identifier", "app"] + IdentifierColumns() + [TagColumn(), SubtagColumn()]
    }

    function IdColumnNames(): seq<string> { [IdColumn()] }

    function TagColumnNames(): seq<string> { [TagColumn(), SubtagColumn()] }

    /** The columns a merge overwrites on a matching row. */
    function UpdateColumnNames(): seq<string> { TagColumnNames() + ["upload_group"] }

    function TableName(): string
    {
      match this
      case Ad => "tag_ads"
      case Adset => "tag_adsets"
      case Campaign => "tag_campaigns"
    }

    function UploadTableName(): string { "upload_" + TableName() }

    function RestoreTableName(): string { "restore_" + TableName() }
  }

  /** `EntityType(name)`: the entity whose value is `name`; any other name
      raises. */
  function FromValue(name: string): (r: Option<EntityType>)
    ensures r.Some? <==> name in {"ad", "adset", "campaign"}
    ensures r.Some? ==> r.value.Value() == name
  {
    if name == "ad" then Some(Ad)
    else if name == "adset" then Some(Adset)
    else if name == "campaign" then Some(Campaign)
    else None
  }

  /** `from_tag_data`: `ad` when the frame has an `ad_id` column, otherwise
      `adset` when it has an `adset_tag` column, otherwise `campaign`. */
  function FromTagData(columns: seq<string>): (e: EntityType)
    ensures e == Ad <==> "ad_id" in columns
    ensures e == Adset <==> "ad_id" !in columns && "adset_tag" in columns
    ensures e == Campaign <==> "ad_id" !in columns && "adset_tag" !in columns
  {
    if "ad_id" in columns then Ad
    else if "adset_tag" in columns then Adset
    else Campaign
  }

  /** A frame whose columns are exactly an entity's tag columns is recognised
      as that entity. */
  lemma FromTagDataRecognisesColumns(e: EntityType)
    ensures FromTagData(e.Columns()) == e
  {
    var cols := e.Columns();
    assert cols[3] == e.IdColumn() && cols[4] == e.TagColumn();
    if e == Ad {
      assert "ad_id" == cols[3];
    } else {
      assert "ad_id" !in cols by {
        forall i | 0 <= i < |cols|
          ensures cols[i] != "ad_id"
        {
          assert cols[i] in {"company_identifier", "app", "channel", e.IdColumn(), e.TagColumn(), e.SubtagColumn()};
          assert e.IdColumn()[|e.Value()|] == '_';
        }
      }
      if e == Adset {
        assert "adset_tag" == cols[4];
      } else {
        assert "adset_tag" !in cols by {
          forall i | 0 <= i < |cols|
            ensures cols[i] != "adset_tag"
          {
            assert cols[i] in {"company_identifier", "app", "channel", e.IdColumn(), e.TagColumn(), e.SubtagColumn()};
          }
        }
      }
    }
  }

  /** The six columns, in order: company, app, the identifier pair, then the
      tag pair; the identifier and update columns sit inside and beside them. */
  lemma ColumnsLayout(e: EntityType)
    ensures var v := e.Value();
      && e.Columns() == ["company_identifier", "app", "channel", v + "_id", v + "_tag", v + "_subtag"]
      && e.IdentifierColumns() == e.Columns()[2..4]
      && e.TagColumnNames() == e.Columns()[4..]
      && e.UpdateColumnNames() == [v + "_tag", v + "_subtag", "upload_group"]
      && Distinct(e.Columns())
  {
    var v := e.Value();
    var cols := e.Columns();
    assert cols == ["company_identifier", "app", "channel", v + "_id", v + "_tag", v + "_subtag"];
    forall i, j | 0 <= i < j < |cols|
      ensures cols[i] != cols[j]
    {
      if 3 <= i {
        assert cols[i][|v| + 1] != cols[j][|v| + 1];
      } else if 3 <= j {
        assert cols[j][1] == v[1] && cols[i][1] != v[1];
      }
    }
  }

  /** All nine table names (three entities, each with its table, upload
      table and restore table) are pairwise distinct. */
  lemma TableNamesDistinct(e: EntityType, f: EntityType)
    ensures e.TableName() == f.TableName() ==> e == f
    ensures e.UploadTableName() == f.UploadTableName() ==> e == f
    ensures e.RestoreTableName() == f.RestoreTableName() ==> e == f
    ensures e.TableName() != f.UploadTableName()
    ensures e.TableName() != f.RestoreTableName()
    ensures e.UploadTableName() != f.RestoreTableName()
  {
    assert e.TableName()[..4] == "tag_";
    assert e.UploadTableName()[..7] == "upload_";
    assert f.UploadTableName()[..7] == "upload_";
    assert e.RestoreTableName()[..8] == "restore_";
    assert f.RestoreTableName()[..8] == "restore_";
    if e.UploadTableName() == f.UploadTableName() {
      assert e.TableName() == e.UploadTableName()[7..] == f.UploadTableName()[7..] == f.TableName();
    }
    if e.RestoreTableName() == f.RestoreTableName() {
      assert e.TableName() == e.RestoreTableName()[8..] == f.RestoreTableName()[8..] == f.TableName();
    }
    assert e.TableName()[0] == 't' && f.UploadTableName()[0] == 'u' && f.RestoreTableName()[0] == 'r';
    assert e.UploadTableName()[0] == 'u';
  }
}
