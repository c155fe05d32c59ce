/** The tagging entry point `Tagger.apply_tags` (subir/tag.py): read a tag
    CSV, pick the entity, clean the frame, confirm, upload. The CSV arrives
    already split into a header and records of cells; the JSON decoder, the
    two prompts' answers and the counts the warehouse reports are inputs. */
module TagApply {
  import opened Wrappers
  import opened Strings
  import opened Base
  import opened Warehouse
  import opened Entities
  import opened TagFrames
  import opened TagUpload
  import Upload

  /** A CSV read with every column as text: its header and its records. */
  datatype CsvFrame = CsvFrame(header: seq<string>, records: seq<seq<Cell>>)

  /** Why `apply_tags` raises: an entity name that is not an entity's value,
      a header that the renames leave with a repeated label, an id the
      decoder rejects, or a warehouse call that raised. */
  datatype ApplyError =
    | UnknownEntity(name: string)
    | DuplicateLabels
    | FrameError(error: TagError)
    | WarehouseError(action: Action)

  /** The two renames: pandas' name for a blank first header cell becomes
      the empty name, and `company` becomes `company_identifier`. */
  function RenamedColumn(name: string): (r: string)
    ensures name != "Unnamed: 0" && name != "company" ==> r == name
    ensures name == "Unnamed: 0" ==> r == ""
    ensures name == "company" ==> r == "company_identifier"
    ensures r != "Unnamed: 0" && r != "company"
    ensures r == "company_identifier" <==> name == "company" || name == "company_identifier"
  {
    if name == "Unnamed: 0" then "" else if name == "company" then "company_identifier" else name
  }

  function RenamedHeader(header: seq<string>): (r: seq<string>)
    ensures |r| == |header| && forall i :: 0 <= i < |header| ==> r[i] == RenamedColumn(header[i])
  {
    seq(|header|, i requires 0 <= i < |header| => RenamedColumn(header[i]))
  }

  /** The cell of `record` under the first header label `column`; missing
      when no label is `column` or the record is too short to reach it. */
  function CellOf(header: seq<string>, record: seq<Cell>, column: string): (c: Cell)
    ensures column !in header ==> c == Missing
    ensures forall j :: 0 <= j < |header| && header[j] == column && column !in header[..j] ==>
      c == (if j < |record| then record[j] else Missing)
  {
    if header == [] then Missing
    else if header[0] == column then (if record == [] then Missing else record[0])
    else
      var rest := CellOf(header[1..], if record == [] then [] else record[1..], column);
      assert forall j :: 1 <= j < |header| ==> header[1..][..j - 1] == header[..j][1..];
      rest
  }

  /** The CSV's first `company` column fills the row's company cell, since
      the rename gives it the entity's `company_identifier` name. */
  lemma CompanyFillsIdentifier(header: seq<string>, record: seq<Cell>, entity: EntityType, j: nat)
    requires j < |header| && header[j] == "company" && "company" !in header[..j]
    requires "company_identifier" !in header
    ensures CutRecord(RenamedHeader(header), record, entity).company == (if j < |record| then record[j] else Missing)
  {
    var renamed := RenamedHeader(header);
    assert entity.Columns()[0] == "company_identifier";
    forall i | 0 <= i < j ensures renamed[i] != "company_identifier" {
      assert header[i] == header[..j][i];
    }
    assert "company_identifier" !in renamed[..j];
  }

  /** `pd.DataFrame(df, columns=entity.columns)` on one record: the entity's
      six columns, in order, a missing column or cell giving a missing value. */
  function CutRecord(header: seq<string>, record: seq<Cell>, entity: EntityType): TagRow
  {
    var cols := entity.Columns();
    TagRow(CellOf(header, record, cols[0]), CellOf(header, record, cols[1]), CellOf(header, record, cols[2]),
           CellOf(header, record, cols[3]), CellOf(header, record, cols[4]), CellOf(header, record, cols[5]))
  }

  function Cut(header: seq<string>, records: seq<seq<Cell>>, entity: EntityType): (rows: seq<TagRow>)
    ensures |rows| == |records|
  {
    seq(|records|, i requires 0 <= i < |records| => CutRecord(header, records[i], entity))
  }

  /** `os.path.basename` on a POSIX path: what follows its last `/`. */
  function Basename(path: string): (name: string)
    ensures '/' !in name
    ensures |name| <= |path| && path[|path| - |name|..] == name
    ensures '/' !in path ==> name == path
    ensures name != path ==> path[|path| - |name| - 1] == '/'
  {
    if path == [] then []
    else if path[|path| - 1] == '/' then []
    else
      var init := path[..|path| - 1];
      assert '/' !in init ==> '/' !in path by {
        assert forall i :: 0 <= i < |path| - 1 ==> path[i] == init[i];
      }
      Basename(init) + [path[|path| - 1]]
  }

  /** The entity `apply_tags` works on: recognised from the renamed header
      for `auto`, otherwise the entity with that value. */
  function ChooseEntity(entityName: string, header: seq<string>): (r: Option<EntityType>)
    ensures entityName == "auto" ==> r == Some(FromTagData(header))
    ensures entityName != "auto" ==> r == Entities.FromValue(entityName)
  {
    if entityName == "auto" then Some(FromTagData(header)) else Entities.FromValue(entityName)
  }

  /** The cleaned frame: the entity, whether `drop_duplicates` let the run
      go on, and the rows left. */
  datatype Prepared = Prepared(entity: EntityType, proceed: bool, rows: seq<TagRow>)

  /** The frame after the tag passes: decoded ids, stripped tags, duplicates
      resolved. */
  function PrepareTags(frame: CsvFrame, entityName: string, decode: string -> Decoded, interactive: bool,
                       resolution: Resolution): Result<Prepared, ApplyError>
  {
    var header := RenamedHeader(frame.header);
    match ChooseEntity(entityName, header)
    case None => Failure(UnknownEntity(entityName))
    case Some(entity) =>
      if !Distinct(header) then Failure(DuplicateLabels)
      else
        var cut := Cut(header, frame.records, entity);
        var k := FirstMalformed(cut, decode);
        if k < |cut| then Failure(FrameError(MalformedId(cut[k].id.s)))
        else
          var decoded := KeepDecoded(cut, decode);
          var (proceed, left) := DropDuplicatesRun(StripAll(decoded), interactive, resolution);
          Success(Prepared(entity, proceed, left))
  }

  /** `strip_empty_tags` over the frame. */
  function StripAll(rows: seq<TagRow>): (r: seq<TagRow>)
    ensures |r| == |rows|
  {
    seq(|rows|, i requires 0 <= i < |rows| => StrippedTags(rows[i]))
  }

  /** How `apply_tags` ends: the row count or the error, and the warehouse
      calls it made. */
  datatype ApplyRun = ApplyRun(result: Result<nat, ApplyError>, actions: seq<Action>)

  /** The warehouse part of `apply_tags` for a cleaned, non-empty frame:
      when interactive, count and ask; then upload and recount.
      `existing` is the tag table's row count before the upload. */
  function WarehouseRun(schema: string, entity: EntityType, rows: seq<TagRow>, group: string, replace: bool,
                        purge: bool, interactive: bool, confirmed: bool, existing: nat, failing: set<Action>)
    : ApplyRun
  {
    var before := if interactive then Execute(CountPlan(schema, entity), failing) else TagRun(Success(()), []);
    if before.result.Failure? then ApplyRun(Failure(WarehouseError(before.result.error)), before.actions)
    else if interactive && !confirmed then ApplyRun(Success(0), before.actions)
    else
      var rest := UploadRun(schema, entity, rows, group, replace, purge, interactive, existing, failing);
      ApplyRun(rest.result, before.actions + rest.actions)
  }

  /** The upload, then, when interactive, the count after it. */
  function UploadRun(schema: string, entity: EntityType, rows: seq<TagRow>, group: string, replace: bool,
                     purge: bool, interactive: bool, existing: nat, failing: set<Action>): ApplyRun
  {
    var upload := Execute(TagUploadPlan(schema, entity, rows, group, replace, purge, existing), failing);
    if upload.result.Failure? then ApplyRun(Failure(WarehouseError(upload.result.error)), upload.actions)
    else
      var after := if interactive then Execute(CountPlan(schema, entity), failing) else TagRun(Success(()), []);
      var actions := upload.actions + after.actions;
      if after.result.Failure? then ApplyRun(Failure(WarehouseError(after.result.error)), actions)
      else ApplyRun(Success(|rows|), actions)
  }

  /** `apply_tags`: nothing reaches the warehouse when the frame cannot be
      read or cleaned, when duplicates are aborted or when no row is left;
      otherwise every row is stamped with the file's base name as its
      upload group and the frame is uploaded after the confirmation. */
  function ApplyTagsRun(schema: string, entityName: string, shouldDrop: bool, shouldPurge: bool, frame: CsvFrame,
                        fileName: string, interactive: bool, decode: string -> Decoded, resolution: Resolution,
                        confirmed: bool, existing: nat, failing: set<Action>): ApplyRun
  {
    match PrepareTags(frame, entityName, decode, interactive, resolution)
    case Failure(e) => ApplyRun(Failure(e), [])
    case Success(p) =>
      if !p.proceed || p.rows == [] then ApplyRun(Success(0), [])
      else WarehouseRun(schema, p.entity, p.rows, Basename(fileName), shouldDrop, shouldPurge, interactive,
                        confirmed, existing, failing)
  }

  // ---------------------------------------------------------------------
  // Properties

  /** Rows that went through decoding, stripping and `drop_duplicates` have
      a decoded id and both tags filled and stripped, and when the run goes
      on no two of them share an identifier. */
  lemma CleanedRows(cut: seq<TagRow>, decode: string -> Decoded, interactive: bool, resolution: Resolution)
    ensures var (proceed, left) := DropDuplicatesRun(StripAll(KeepDecoded(cut, decode)), interactive, resolution);
      && (proceed ==> UniqueKeys(left, Identifier))
      && forall x :: x in left ==> CleanRow(x)
  {
    var stripped := StripAll(KeepDecoded(cut, decode));
    DropDuplicatesOutcome(stripped, interactive, resolution);
    DecodedRowsClean(cut, decode);
  }

  /** Decoding and stripping leave only rows ready for upload. */
  lemma DecodedRowsClean(cut: seq<TagRow>, decode: string -> Decoded)
    ensures forall x :: x in StripAll(KeepDecoded(cut, decode)) ==> CleanRow(x)
  {
    var decoded := KeepDecoded(cut, decode);
    var stripped := StripAll(decoded);
    forall x | x in stripped
      ensures CleanRow(x)
    {
      var i :| 0 <= i < |stripped| && stripped[i] == x;
      StrippedTagsClean(decoded[i]);
      KeepDecodedMembers(cut, decode, decoded[i]);
      assert decoded[i] in decoded;
    }
  }

  /** A row ready for upload: a decoded id, both tags strings without
      surrounding whitespace. */
  predicate CleanRow(x: TagRow)
  {
    && x.id.Text? && x.tag.Text? && x.subtag.Text?
    && (x.tag.s == [] || (!IsSpace(x.tag.s[0]) && !IsSpace(x.tag.s[|x.tag.s| - 1])))
    && (x.subtag.s == [] || (!IsSpace(x.subtag.s[0]) && !IsSpace(x.subtag.s[|x.subtag.s| - 1])))
  }

  /** Every row of a cleaned frame is ready for upload; when the run goes on,
      no two rows share an identifier. */
  lemma PreparedRowsClean(frame: CsvFrame, entityName: string, decode: string -> Decoded, interactive: bool,
                          resolution: Resolution, p: Prepared)
    requires PrepareTags(frame, entityName, decode, interactive, resolution) == Success(p)
    ensures p.proceed ==> UniqueKeys(p.rows, Identifier)
    ensures forall x :: x in p.rows ==> CleanRow(x)
  {
    var header := RenamedHeader(frame.header);
    var cut := Cut(header, frame.records, p.entity);
    assert (p.proceed, p.rows) == DropDuplicatesRun(StripAll(KeepDecoded(cut, decode)), interactive, resolution);
    CleanedRows(cut, decode, interactive, resolution);
  }

  /** An interactive run aborted over rows that share an identifier returns
      0 without a single warehouse call. */
  lemma AbortReachesNoWarehouse(schema: string, entityName: string, shouldDrop: bool, shouldPurge: bool,
                                frame: CsvFrame, fileName: string, decode: string -> Decoded, confirmed: bool,
                                existing: nat, failing: set<Action>, p: Prepared)
    requires PrepareTags(frame, entityName, decode, true, Abort) == Success(p)
    requires !UniqueKeys(p.rows, Identifier)
    ensures ApplyTagsRun(schema, entityName, shouldDrop, shouldPurge, frame, fileName, true, decode, Abort,
                         confirmed, existing, failing) == ApplyRun(Success(0), [])
  {
    PreparedRowsClean(frame, entityName, decode, true, Abort, p);
  }

  /** When the warehouse part answers 0, the prompt was declined and only
      the count reached the warehouse. */
  lemma WarehouseZero(schema: string, entity: EntityType, rows: seq<TagRow>, group: string, replace: bool,
                      purge: bool, interactive: bool, confirmed: bool, existing: nat, failing: set<Action>)
    requires rows != []
    ensures var run := WarehouseRun(schema, entity, rows, group, replace, purge, interactive, confirmed, existing, failing);
      run.result == Success(0) ==>
        && interactive && !confirmed
        && run.actions == CountPlan(schema, entity)
  {
    if interactive {
      ExecuteIsPrefix(CountPlan(schema, entity), failing);
    }
  }

  /** A run that returns 0 inserted nothing and merged nothing: at most the
      interactive count reached the warehouse. */
  lemma ZeroUploadsNothing(schema: string, entityName: string, shouldDrop: bool, shouldPurge: bool, frame: CsvFrame,
                           fileName: string, interactive: bool, decode: string -> Decoded, resolution: Resolution,
                           confirmed: bool, existing: nat, failing: set<Action>)
    ensures var run := ApplyTagsRun(schema, entityName, shouldDrop, shouldPurge, frame, fileName, interactive,
                                    decode, resolution, confirmed, existing, failing);
      run.result == Success(0) ==> forall a :: a in run.actions ==> !a.InsertTags? && !a.RunMerge?
  {
    var prepared := PrepareTags(frame, entityName, decode, interactive, resolution);
    var run := ApplyTagsRun(schema, entityName, shouldDrop, shouldPurge, frame, fileName, interactive,
                            decode, resolution, confirmed, existing, failing);
    if prepared.Success? && prepared.value.proceed && prepared.value.rows != [] {
      var p := prepared.value;
      var group := Basename(fileName);
      assert run == WarehouseRun(schema, p.entity, p.rows, group, shouldDrop, shouldPurge, interactive,
                                 confirmed, existing, failing);
      WarehouseZero(schema, p.entity, p.rows, group, shouldDrop, shouldPurge, interactive,
                    confirmed, existing, failing);
      if run.result == Success(0) {
        assert run.actions == CountPlan(schema, p.entity);
      }
    } else {
      assert run.actions == [];
    }
  }

  /** When the upload and recount answer a positive number, it is the
      frame's row count and the upload made every call of its plan, the
      insert of the frame and the merge among them; when nothing raises,
      that is the answer. */
  lemma UploadRunPositive(schema: string, entity: EntityType, rows: seq<TagRow>, group: string, replace: bool,
                          purge: bool, interactive: bool, existing: nat, failing: set<Action>)
    ensures var run := UploadRun(schema, entity, rows, group, replace, purge, interactive, existing, failing);
      && (run.result.Success? ==>
            && run.result.value == |rows|
            && TagInsert(schema, entity, rows, group) in run.actions
            && RunMerge(TagMerge(schema, entity)) in run.actions)
      && (failing == {} ==> run.result == Success(|rows|))
  {
    var run := UploadRun(schema, entity, rows, group, replace, purge, interactive, existing, failing);
    var plan := TagUploadPlan(schema, entity, rows, group, replace, purge, existing);
    var upload := Execute(plan, failing);
    var after := if interactive then Execute(CountPlan(schema, entity), failing) else TagRun(Success(()), []);
    ExecuteIsPrefix(plan, failing);
    ExecuteIsPrefix(CountPlan(schema, entity), failing);
    TagUploadPlanOrder(schema, entity, rows, group, replace, purge, existing);
    if run.result.Success? {
      assert upload.result.Success? && upload.actions == plan;
      var k := 7 + (if existing > 0 then 1 else 0) + (if existing > 0 && replace then 1 else 0);
      assert run.actions == plan + after.actions;
      assert run.actions[4] == plan[4];
      assert run.actions[k] == plan[k];
    }
  }

  /** When the warehouse part answers a positive number, the upload and
      recount answered it; when nothing raises and the upload is confirmed or
      not asked about, the answer is the frame's row count. */
  lemma WarehousePositive(schema: string, entity: EntityType, rows: seq<TagRow>, group: string, replace: bool,
                          purge: bool, interactive: bool, confirmed: bool, existing: nat, failing: set<Action>)
    ensures var run := WarehouseRun(schema, entity, rows, group, replace, purge, interactive, confirmed, existing, failing);
      && (run.result.Success? && run.result.value > 0 ==>
            && run.result.value == |rows|
            && TagInsert(schema, entity, rows, group) in run.actions
            && RunMerge(TagMerge(schema, entity)) in run.actions)
      && (failing == {} && (!interactive || confirmed) ==> run.result == Success(|rows|))
  {
    var before := if interactive then Execute(CountPlan(schema, entity), failing) else TagRun(Success(()), []);
    var rest := UploadRun(schema, entity, rows, group, replace, purge, interactive, existing, failing);
    UploadRunPositive(schema, entity, rows, group, replace, purge, interactive, existing, failing);
    ExecuteIsPrefix(CountPlan(schema, entity), failing);
    assert forall a :: a in rest.actions ==> a in before.actions + rest.actions;
  }

  /** A run that returns a positive number uploaded the cleaned frame: the
      number is its row count, and the insert of its rows, stamped with the
      file's base name, and the merge are among the calls made. When nothing
      raises, a cleaned non-empty frame that is confirmed (or not asked
      about) is uploaded. */
  lemma PositiveUploadsFrame(schema: string, entityName: string, shouldDrop: bool, shouldPurge: bool,
                             frame: CsvFrame, fileName: string, interactive: bool, decode: string -> Decoded,
                             resolution: Resolution, confirmed: bool, existing: nat, failing: set<Action>, p: Prepared)
    requires PrepareTags(frame, entityName, decode, interactive, resolution) == Success(p)
    ensures var run := ApplyTagsRun(schema, entityName, shouldDrop, shouldPurge, frame, fileName, interactive,
                                    decode, resolution, confirmed, existing, failing);
      && (run.result.Success? && run.result.value > 0 ==>
            && run.result.value == |p.rows|
            && TagInsert(schema, p.entity, p.rows, Basename(fileName)) in run.actions
            && RunMerge(TagMerge(schema, p.entity)) in run.actions)
      && (failing == {} && p.proceed && p.rows != [] && (!interactive || confirmed) ==>
            run.result == Success(|p.rows|))
  {
    WarehousePositive(schema, p.entity, p.rows, Basename(fileName), shouldDrop, shouldPurge, interactive,
                      confirmed, existing, failing);
  }

  // ---------------------------------------------------------------------
  // The entry point

  /** The frame part of `apply_tags`: rename, pick the entity, cut the frame
      to its columns and run the three cleaning passes on it in place. */
  method PrepareFrame(frame: CsvFrame, entityName: string, decode: string -> Decoded, interactive: bool,
                      resolution: Resolution)
    returns (r: Result<Prepared, ApplyError>)
    ensures r == PrepareTags(frame, entityName, decode, interactive, resolution)
  {
    var header := RenamedHeader(frame.header);
    var entity: EntityType;
    if entityName == "auto" {
      entity := FromTagData(header);
    } else {
      var chosen := Entities.FromValue(entityName);
      if chosen.None? {
        return Failure(UnknownEntity(entityName));
      }
      entity := chosen.value;
    }
    if !Distinct(header) {
      return Failure(DuplicateLabels);
    }
    var df := new TagFrame(Cut(header, frame.records, entity));
    var converted := df.ConvertIdColumns(decode);
    if converted.Failure? {
      return Failure(FrameError(converted.error));
    }
    ghost var decoded := df.rows;
    df.StripEmptyTags();
    assert df.rows == StripAll(decoded);
    var proceed := df.DropDuplicates(interactive, resolution);
    return Success(Prepared(entity, proceed, df.rows));
  }

  /** `Tagger.apply_tags`. `existing` is the tag table's row count before
      the upload and `final` the one after it, as the count queries report
      them; `confirmed` is the answer to the prompt. */
  method ApplyTags(layer: Layer, schema: string, entityName: string, shouldDrop: bool, shouldPurge: bool,
                   frame: CsvFrame, fileName: string, interactive: bool, decode: string -> Decoded,
                   resolution: Resolution, confirmed: bool, existing: nat, final: nat)
    returns (r: Result<nat, ApplyError>)
    modifies layer
    ensures var run := ApplyTagsRun(schema, entityName, shouldDrop, shouldPurge, frame, fileName, interactive,
                                    decode, resolution, confirmed, existing, layer.failing);
      r == run.result && layer.log == old(layer.log) + run.actions
  {
    var prepared := PrepareFrame(frame, entityName, decode, interactive, resolution);
    if prepared.Failure? {
      return Failure(prepared.error);
    }
    var p := prepared.value;
    if !p.proceed || |p.rows| == 0 {
      return Success(0);
    }
    var group := Basename(fileName);
    r := UploadConfirmed(layer, schema, p.entity, p.rows, group, shouldDrop, shouldPurge, interactive, confirmed,
                         existing, final);
  }

  /** The warehouse part of `apply_tags` for a cleaned, non-empty frame. */
  method UploadConfirmed(layer: Layer, schema: string, entity: EntityType, rows: seq<TagRow>, group: string,
                         replace: bool, purge: bool, interactive: bool, confirmed: bool, existing: nat, final: nat)
    returns (r: Result<nat, ApplyError>)
    modifies layer
    ensures var run := WarehouseRun(schema, entity, rows, group, replace, purge, interactive, confirmed, existing,
                                    layer.failing);
      r == run.result && layer.log == old(layer.log) + run.actions
  {
    ghost var pre := if interactive then Execute(CountPlan(schema, entity), layer.failing) else TagRun(Success(()), []);
    if interactive {
      var count := CountExistingTags(layer, schema, entity, existing);
      if count.Failure? {
        return Failure(WarehouseError(count.error));
      }
      if !confirmed {
        return Success(0);
      }
    }
    assert pre.result.Success? && layer.log == old(layer.log) + pre.actions;
    r := UploadAndRecount(layer, schema, entity, rows, group, replace, purge, interactive, existing, final);
    ghost var rest := UploadRun(schema, entity, rows, group, replace, purge, interactive, existing, layer.failing);
    assert WarehouseRun(schema, entity, rows, group, replace, purge, interactive, confirmed, existing, layer.failing)
      == ApplyRun(rest.result, pre.actions + rest.actions);
    AppendAssociates(old(layer.log), pre.actions, rest.actions);
  }

  /** `upload_tags`, then, when interactive, `count_tags` again. */
  method UploadAndRecount(layer: Layer, schema: string, entity: EntityType, rows: seq<TagRow>, group: string,
                          replace: bool, purge: bool, interactive: bool, existing: nat, final: nat)
    returns (r: Result<nat, ApplyError>)
    modifies layer
    ensures var run := UploadRun(schema, entity, rows, group, replace, purge, interactive, existing, layer.failing);
      r == run.result && layer.log == old(layer.log) + run.actions
  {
    var uploaded := UploadTags(layer, schema, entity, rows, group, replace, purge, existing);
    ghost var upload := Execute(TagUploadPlan(schema, entity, rows, group, replace, purge, existing), layer.failing);
    if uploaded.Failure? {
      return Failure(WarehouseError(uploaded.error));
    }
    if interactive {
      var count := CountExistingTags(layer, schema, entity, final);
      ghost var after := Execute(CountPlan(schema, entity), layer.failing);
      AppendAssociates(old(layer.log), upload.actions, after.actions);
      if count.Failure? {
        return Failure(WarehouseError(count.error));
      }
    } else {
      assert upload.actions + [] == upload.actions;
    }
    return Success(|rows|);
  }
}
