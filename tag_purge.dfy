/** What the purge of `upload_tags` (subir/tag.py) does to a tag table: the
    delete statement removes the rows whose tag columns are all empty or
    null, and the update after it turns an empty subtag into null. The
    table is a sequence of rows as the warehouse holds them. */
module TagPurge {
  import opened Wrappers
  import opened Queries
  import opened Entities

  /** A row of a tag table in the warehouse; `None` is SQL null. */
  datatype StoredTag = StoredTag(company: Option<string>, app: Option<string>, channel: Option<string>,
                                 id: Option<string>, tag: Option<string>, subtag: Option<string>,
                                 uploadGroup: Option<string>)

  /** `("c" = %s or "c" is null)` on a row holding `value` in column `c`,
      with `param` bound to the placeholder. */
  predicate ConditionHolds(value: Option<string>, param: string)
  {
    value == None || value == Some(param)
  }

  /** The conditions joined by `and`: every column's value meets the
      condition with the parameter bound to it. */
  predicate WhereHolds(q: Sql, values: seq<Option<string>>)
    requires |values| == |q.params|
  {
    forall i :: 0 <= i < |values| ==> ConditionHolds(values[i], q.params[i])
  }

  /** The row's values in the entity's tag columns, in their order. */
  function TagValues(r: StoredTag): seq<Option<string>>
  {
    [r.tag, r.subtag]
  }

  /** Both tag columns hold `''` or null. */
  predicate EmptyTags(r: StoredTag)
  {
    (r.tag == None || r.tag == Some("")) && (r.subtag == None || r.subtag == Some(""))
  }

  /** The purge statement's where clause, with its `''` parameters, holds on
      a row exactly when both of its tags are empty or null. */
  lemma PurgeSelectsEmptyTags(schema: string, entity: EntityType, r: StoredTag)
    ensures var q := PurgeTags(schema, entity.TableName(), entity.TagColumnNames()).Generated();
      && |q.params| == |TagValues(r)|
      && (WhereHolds(q, TagValues(r)) <==> EmptyTags(r))
  {
    var q := PurgeTags(schema, entity.TableName(), entity.TagColumnNames()).Generated();
    assert q == PurgeSql(schema, entity.TableName(), entity.TagColumnNames());
    assert q.params[0] == "" && q.params[1] == "";
  }

  /** The delete: the rows whose tags are not all empty, in order. */
  function Purge(rows: seq<StoredTag>): seq<StoredTag>
  {
    if rows == [] then []
    else (if EmptyTags(rows[0]) then [] else [rows[0]]) + Purge(rows[1..])
  }

  /** The update on one row: an empty subtag becomes null. */
  function NullEmptySubtag(r: StoredTag): StoredTag
  {
    if r.subtag == Some("") then r.(subtag := None) else r
  }

  /** The update on the table. */
  function NullEmptySubtags(rows: seq<StoredTag>): seq<StoredTag>
  {
    seq(|rows|, i requires 0 <= i < |rows| => NullEmptySubtag(rows[i]))
  }

  /** The purge as `upload_tags` runs it: the delete, then the update. */
  function PurgeThenConvert(rows: seq<StoredTag>): seq<StoredTag>
  {
    NullEmptySubtags(Purge(rows))
  }

  /** The delete keeps exactly the rows with a non-empty tag, never adding one. */
  lemma {:induction false} PurgeMembers(rows: seq<StoredTag>, x: StoredTag)
    ensures x in Purge(rows) <==> x in rows && !EmptyTags(x)
    ensures |Purge(rows)| <= |rows|
  {
    if rows != [] {
      PurgeMembers(rows[1..], x);
      assert x in rows <==> x == rows[0] || x in rows[1..];
    }
  }

  /** A table without empty-tag rows loses nothing to the delete. */
  lemma {:induction false} PurgeFixed(rows: seq<StoredTag>)
    requires forall i :: 0 <= i < |rows| ==> !EmptyTags(rows[i])
    ensures Purge(rows) == rows
  {
    if rows != [] {
      PurgeFixed(rows[1..]);
      assert rows == [rows[0]] + rows[1..];
    }
  }

  /** After the purge no row has all-empty tags or an empty subtag; a row
      left is a kept row of the table with its empty subtag nulled; and every
      row with a non-empty tag is still there in that form. */
  lemma PurgeThenConvertClean(rows: seq<StoredTag>)
    ensures var left := PurgeThenConvert(rows);
      && |left| <= |rows|
      && (forall x :: x in left ==> !EmptyTags(x) && x.subtag != Some(""))
      && (forall x :: x in left ==> exists r :: r in rows && !EmptyTags(r) && x == NullEmptySubtag(r))
      && (forall r :: r in rows && !EmptyTags(r) ==> NullEmptySubtag(r) in left)
  {
    var kept := Purge(rows);
    var left := PurgeThenConvert(rows);
    PurgeMembers(rows, StoredTag(None, None, None, None, None, None, None));
    forall x | x in left
      ensures !EmptyTags(x) && x.subtag != Some("")
      ensures exists r :: r in rows && !EmptyTags(r) && x == NullEmptySubtag(r)
    {
      var i :| 0 <= i < |left| && left[i] == x;
      PurgeMembers(rows, kept[i]);
    }
    forall r | r in rows && !EmptyTags(r)
      ensures NullEmptySubtag(r) in left
    {
      PurgeMembers(rows, r);
      var i :| 0 <= i < |kept| && kept[i] == r;
      assert left[i] == NullEmptySubtag(r);
    }
  }

  /** Running the purge a second time changes nothing. */
  lemma PurgeThenConvertIdempotent(rows: seq<StoredTag>)
    ensures PurgeThenConvert(PurgeThenConvert(rows)) == PurgeThenConvert(rows)
  {
    var left := PurgeThenConvert(rows);
    PurgeThenConvertClean(rows);
    assert forall i :: 0 <= i < |left| ==> left[i] in left;
    PurgeFixed(left);
    assert NullEmptySubtags(left) == left;
  }
}
