/** Uploading a cleaned tag frame and the tagging entry point (subir/tag.py,
    `count_tags`, `upload_tags`, `Tagger.apply_tags`). The warehouse is the
    logging layer of `Warehouse`; reading the CSV, JSON decoding and the two
    prompts are inputs. */
module TagUpload {
  import opened Wrappers
  import opened Strings
  import opened Base
  import opened Queries
  import opened Warehouse
  import opened Entities
  import opened TagFrames

  /** How a run of warehouse calls ends: the call that raised, if one did,
      and the calls made, in order. */
  datatype TagRun = TagRun(result: Result<(), Action>, actions: seq<Action>)

  /** Make call `a`; if it raises, stop there, otherwise go on with `next`. */
  function Then(a: Action, failing: set<Action>, next: TagRun): TagRun
  {
    if a in failing then TagRun(Failure(a), [a]) else TagRun(next.result, [a] + next.actions)
  }

  /** Make the calls of `plan` in order, stopping at the first that raises:
      the semantics of a sequence of statements without `try`. */
  function Execute(plan: seq<Action>, failing: set<Action>): TagRun
  {
    if plan == [] then TagRun(Success(()), []) else Then(plan[0], failing, Execute(plan[1..], failing))
  }

  /** A run of statements without `try` makes a prefix of its plan: all of it
      when none raises, otherwise up to and including the first call that
      raises, which is the error. */
  lemma ExecuteIsPrefix(plan: seq<Action>, failing: set<Action>)
    ensures var run := Execute(plan, failing);
      && |run.actions| <= |plan| && run.actions == plan[..|run.actions|]
      && (run.result.Success? <==> forall a :: a in plan ==> a !in failing)
      && (run.result.Success? ==> run.actions == plan)
      && (run.result.Failure? ==>
            && run.actions != []
            && run.result.error == run.actions[|run.actions| - 1]
            && run.result.error in failing
            && forall i :: 0 <= i < |run.actions| - 1 ==> run.actions[i] !in failing)
  {
    ExecutePrefix(plan, failing);
    ExecuteSucceeds(plan, failing);
    ExecuteFails(plan, failing);
  }

  /** The calls made are the plan's first ones. */
  lemma {:induction false} ExecutePrefix(plan: seq<Action>, failing: set<Action>)
    ensures var run := Execute(plan, failing);
      |run.actions| <= |plan| && run.actions == plan[..|run.actions|]
  {
    if plan != [] {
      ExecutePrefix(plan[1..], failing);
      var rest := Execute(plan[1..], failing);
      if plan[0] !in failing {
        var m := |rest.actions|;
        assert Execute(plan, failing).actions == [plan[0]] + rest.actions;
        assert [plan[0]] + plan[1..][..m] == plan[..m + 1];
      } else {
        assert plan[..1] == [plan[0]];
      }
    }
  }

  /** The run succeeds exactly when no call of the plan raises, and then it made them all. */
  lemma {:induction false} ExecuteSucceeds(plan: seq<Action>, failing: set<Action>)
    ensures var run := Execute(plan, failing);
      && (run.result.Success? <==> forall a :: a in plan ==> a !in failing)
      && (run.result.Success? ==> run.actions == plan)
  {
    if plan != [] {
      ExecuteSucceeds(plan[1..], failing);
      assert plan == [plan[0]] + plan[1..];
      assert forall a :: a in plan <==> a == plan[0] || a in plan[1..];
    }
  }

  /** A failed run ends with the call that raised, and no earlier call raised. */
  lemma {:induction false} ExecuteFails(plan: seq<Action>, failing: set<Action>)
    ensures var run := Execute(plan, failing);
      run.result.Failure? ==>
        && run.actions != []
        && run.result.error == run.actions[|run.actions| - 1]
        && run.result.error in failing
        && forall i :: 0 <= i < |run.actions| - 1 ==> run.actions[i] !in failing
  {
    if plan != [] {
      ExecuteFails(plan[1..], failing);
      var rest := Execute(plan[1..], failing);
      if plan[0] !in failing && rest.result.Failure? {
        var actions := [plan[0]] + rest.actions;
        assert Execute(plan, failing).actions == actions;
        forall i | 0 <= i < |actions| - 1
          ensures actions[i] !in failing
        {
          if i > 0 {
            assert actions[i] == rest.actions[i - 1];
          }
        }
      }
    }
  }

  // ---------------------------------------------------------------------
  // count_tags

  /** The calls `count_tags` makes: connect, count the tag table, disconnect. */
  function CountPlan(schema: string, entity: EntityType): seq<Action>
  {
    [Connect, Run(CountTags(schema, entity.TableName())), Disconnect]
  }

  /** `count_tags`, `count` being the number the count query's row holds:
      the warehouse sees the plan's calls up to the first that raises; the
      answer is that number when none raises. */
  method CountExistingTags(layer: Layer, schema: string, entity: EntityType, count: nat) returns (r: Result<nat, Action>)
    modifies layer
    ensures var run := Execute(CountPlan(schema, entity), layer.failing);
      && layer.log == old(layer.log) + run.actions
      && (r.Success? <==> run.result.Success?)
      && (r.Success? ==> r.value == count)
      && (r.Failure? ==> r.error == run.result.error)
  {
    ghost var plan := CountPlan(schema, entity);
    ghost var start := layer.log;
    var ok := Issue(layer, Connect, start, plan, 0);
    if !ok { return Failure(Connect); }
    var countQuery := Run(CountTags(schema, entity.TableName()));
    ok := Issue(layer, countQuery, start, plan, 1);
    if !ok { return Failure(countQuery); }
    ok := Issue(layer, Disconnect, start, plan, 2);
    if !ok { return Failure(Disconnect); }
    assert plan[..3] == plan;
    ExecuteCompletes(plan, layer.failing);
    return Success(count);
  }

  // ---------------------------------------------------------------------
  // upload_tags

  /** The merge of the upload table into the tag table: it joins on the
      identifier columns and overwrites the update columns, both tables in
      `schema`. */
  function TagMerge(schema: string, entity: EntityType): (m: MergeQuery)
    ensures m.joinColumns == ["channel", entity.Value() + "_id"]
    ensures m.updateColumns == [entity.Value() + "_tag", entity.Value() + "_subtag", "upload_group"]
    ensures m.sourceTable == entity.UploadTableName() && m.targetTable == entity.TableName()
    ensures m.sourceSchema == Some(schema) && m.targetSchema == Some(schema)
  {
    MergeQuery(entity.IdentifierColumns(), entity.UpdateColumnNames(), entity.UploadTableName(), entity.TableName(),
               Some(schema), Some(schema))
  }

  /** The frame `upload_tags` inserts: the entity's columns and the upload group. */
  function TagInsert(schema: string, entity: EntityType, rows: seq<TagRow>, group: string): Action
  {
    InsertTags(schema, entity.UploadTableName(), entity.Columns() + ["upload_group"], rows, group)
  }

  /** The calls `upload_tags` makes when none raises, `count` being the
      target table's row count the count query returns: prepare the upload
      table and commit; insert the frame; count; back the target up when it
      has rows, and truncate it too when replacing; merge; purge the empty
      tag rows and turn empty subtags into null when purging; drop the upload
      table; commit. */
  function TagUploadPlan(schema: string, entity: EntityType, rows: seq<TagRow>, group: string,
                         replace: bool, purge: bool, count: nat): seq<Action>
  {
    OpeningCalls(schema, entity, rows, group)
    + BackupCalls(schema, entity, replace, count)
    + [RunMerge(TagMerge(schema, entity))]
    + PurgeCalls(schema, entity, purge)
    + ClosingCalls(schema, entity)
  }

  /** Prepare the upload table and commit, insert the frame, count the target. */
  function OpeningCalls(schema: string, entity: EntityType, rows: seq<TagRow>, group: string): seq<Action>
  {
    var table := entity.TableName();
    [ Connect, Run(PrepareTagUpload(schema, entity.UploadTableName(), table)), Commit, Disconnect,
      TagInsert(schema, entity, rows, group),
      Connect, Run(CountTags(schema, table)) ]
  }

  /** The backup when the target has rows, followed by the truncate when also replacing. */
  function BackupCalls(schema: string, entity: EntityType, replace: bool, count: nat): seq<Action>
  {
    var table := entity.TableName();
    if count > 0 then [Run(BackupTags(schema, entity.RestoreTableName(), table))]
                      + (if replace then [Run(TruncateTags(schema, table))] else [])
    else []
  }

  /** The purge pair when purging. */
  function PurgeCalls(schema: string, entity: EntityType, purge: bool): seq<Action>
  {
    var table := entity.TableName();
    if purge then [Run(PurgeTags(schema, table, entity.TagColumnNames())),
                   Run(ConvertEmptySubtags(schema, table, entity.Value()))]
    else []
  }

  /** The drop of the upload table and the final commit. */
  function ClosingCalls(schema: string, entity: EntityType): seq<Action>
  {
    [Run(DropTagUpload(schema, entity.UploadTableName())), Commit]
  }

  /** Where the plan's calls sit: the seven opening calls, then the backup
      when the target has rows and the truncate right after it when also
      replacing, then the merge, then the purge pair when purging, and the
      upload table's drop and a commit last. */
  lemma TagUploadPlanOrder(schema: string, entity: EntityType, rows: seq<TagRow>, group: string,
                           replace: bool, purge: bool, count: nat)
    ensures var plan := TagUploadPlan(schema, entity, rows, group, replace, purge, count);
      var table := entity.TableName();
      var k := 7 + (if count > 0 then 1 else 0) + (if count > 0 && replace then 1 else 0);
      && |plan| == k + 3 + (if purge then 2 else 0)
      && plan[0] == Connect
      && plan[1] == Run(PrepareTagUpload(schema, entity.UploadTableName(), table))
      && plan[2] == Commit
      && plan[3] == Disconnect
      && plan[4] == TagInsert(schema, entity, rows, group)
      && plan[5] == Connect
      && plan[6] == Run(CountTags(schema, table))
      && (count > 0 ==> plan[7] == Run(BackupTags(schema, entity.RestoreTableName(), table)))
      && (count > 0 && replace ==> plan[8] == Run(TruncateTags(schema, table)))
      && plan[k] == RunMerge(TagMerge(schema, entity))
      && (purge ==> plan[k + 1] == Run(PurgeTags(schema, table, entity.TagColumnNames())))
      && (purge ==> plan[k + 2] == Run(ConvertEmptySubtags(schema, table, entity.Value())))
      && plan[|plan| - 2] == Run(DropTagUpload(schema, entity.UploadTableName()))
      && plan[|plan| - 1] == Commit
  {
    var plan := TagUploadPlan(schema, entity, rows, group, replace, purge, count);
    var opening := OpeningCalls(schema, entity, rows, group);
    var backup := BackupCalls(schema, entity, replace, count);
    var front := opening + backup + [RunMerge(TagMerge(schema, entity))];
    var back := PurgeCalls(schema, entity, purge) + ClosingCalls(schema, entity);
    AppendAssociates(front, PurgeCalls(schema, entity, purge), ClosingCalls(schema, entity));
    assert plan == front + back;
    assert |opening| == 7 && |front| == 8 + |backup|;
    assert forall i :: 0 <= i < |front| ==> plan[i] == front[i];
    assert forall i :: 0 <= i < 7 ==> front[i] == opening[i];
  }

  /** The backup is in the plan exactly when the target has rows, the
      truncate exactly when it has rows and the upload replaces. */
  lemma TagUploadPlanBackupRule(schema: string, entity: EntityType, rows: seq<TagRow>, group: string,
                                replace: bool, purge: bool, count: nat)
    ensures var plan := TagUploadPlan(schema, entity, rows, group, replace, purge, count);
      var table := entity.TableName();
      && (Run(BackupTags(schema, entity.RestoreTableName(), table)) in plan <==> count > 0)
      && (Run(TruncateTags(schema, table)) in plan <==> count > 0 && replace)
  {
    var plan := TagUploadPlan(schema, entity, rows, group, replace, purge, count);
    var table := entity.TableName();
    var opening := OpeningCalls(schema, entity, rows, group);
    var backup := BackupCalls(schema, entity, replace, count);
    var purging := PurgeCalls(schema, entity, purge);
    var closing := ClosingCalls(schema, entity);
    assert plan == opening + backup + [RunMerge(TagMerge(schema, entity))] + purging + closing;
    var b := Run(BackupTags(schema, entity.RestoreTableName(), table));
    var t := Run(TruncateTags(schema, table));
    assert b !in opening && b !in purging && b !in closing;
    assert t !in opening && t !in purging && t !in closing;
  }

  /** What the warehouse sees of `upload_tags`: the backup only when the
      target had rows, the truncate only when it had rows and the upload
      replaces; a successful upload made every call of the plan, ending with
      the drop of the upload table and a commit; a failed one stopped at the
      call that raised. */
  lemma TagUploadOutcome(schema: string, entity: EntityType, rows: seq<TagRow>, group: string,
                         replace: bool, purge: bool, count: nat, failing: set<Action>)
    ensures var plan := TagUploadPlan(schema, entity, rows, group, replace, purge, count);
      var run := Execute(plan, failing);
      var table := entity.TableName();
      && (Run(BackupTags(schema, entity.RestoreTableName(), table)) in run.actions ==> count > 0)
      && (Run(TruncateTags(schema, table)) in run.actions ==> count > 0 && replace)
      && (run.result.Success? ==>
            && run.actions == plan
            && run.actions[|run.actions| - 2] == Run(DropTagUpload(schema, entity.UploadTableName()))
            && run.actions[|run.actions| - 1] == Commit)
      && (run.result.Failure? ==> run.result.error in failing && run.result.error == run.actions[|run.actions| - 1])
  {
    var plan := TagUploadPlan(schema, entity, rows, group, replace, purge, count);
    var run := Execute(plan, failing);
    ExecuteIsPrefix(plan, failing);
    ExecuteWithin(plan, failing);
    TagUploadPlanBackupRule(schema, entity, rows, group, replace, purge, count);
    if run.result.Success? {
      TagUploadPlanOrder(schema, entity, rows, group, replace, purge, count);
    }
  }

  /** A run makes no call that is not in its plan. */
  lemma ExecuteWithin(plan: seq<Action>, failing: set<Action>)
    ensures forall a :: a in Execute(plan, failing).actions ==> a in plan
  {
    var run := Execute(plan, failing);
    ExecuteIsPrefix(plan, failing);
    forall a | a in run.actions
      ensures a in plan
    {
      var i :| 0 <= i < |run.actions| && run.actions[i] == a;
      assert plan[i] == a;
    }
  }

  /** A run that made the first `k` calls of its plan without a raise and
      then met a raising call stops there with that call as the error. */
  lemma ExecuteStopsAt(plan: seq<Action>, failing: set<Action>, k: nat)
    requires k < |plan| && plan[k] in failing
    requires forall i :: 0 <= i < k ==> plan[i] !in failing
    ensures Execute(plan, failing) == TagRun(Failure(plan[k]), plan[..k + 1])
  {
    ExecuteIsPrefix(plan, failing);
    var run := Execute(plan, failing);
    assert plan[k] in plan;
    var n := |run.actions|;
    assert run.actions[n - 1] == plan[n - 1];
    assert n - 1 <= k by {
      assert forall i :: 0 <= i < n - 1 ==> plan[i] == run.actions[i];
    }
  }

  /** A run whose calls all went through made its whole plan. */
  lemma ExecuteCompletes(plan: seq<Action>, failing: set<Action>)
    requires forall i :: 0 <= i < |plan| ==> plan[i] !in failing
    ensures Execute(plan, failing) == TagRun(Success(()), plan)
  {
    ExecuteIsPrefix(plan, failing);
  }

  /** One statement of a run without `try`: make the plan's call at `k`,
      after the `k` calls before it went through. */
  method Issue(layer: Layer, a: Action, ghost start: seq<Action>, ghost plan: seq<Action>, ghost k: nat)
    returns (ok: bool)
    requires k < |plan| && plan[k] == a
    requires layer.log == start + plan[..k]
    requires forall i :: 0 <= i < k ==> plan[i] !in layer.failing
    modifies layer
    ensures layer.log == start + plan[..k + 1]
    ensures ok == (a !in layer.failing)
    ensures ok ==> forall i :: 0 <= i < k + 1 ==> plan[i] !in layer.failing
    ensures !ok ==> Execute(plan, layer.failing) == TagRun(Failure(a), plan[..k + 1])
  {
    ok := layer.Perform(a);
    assert plan[..k + 1] == plan[..k] + [a];
    AppendAssociates(start, plan[..k], [a]);
    if !ok {
      ExecuteStopsAt(plan, layer.failing, k);
    }
  }

  /** `upload_tags`: the warehouse sees the calls of its plan up to the
      first that raises, and that call, if any, is the error. */
  method UploadTags(layer: Layer, schema: string, entity: EntityType, rows: seq<TagRow>, group: string,
                    replace: bool, purge: bool, count: nat)
    returns (r: Result<(), Action>)
    modifies layer
    ensures var run := Execute(TagUploadPlan(schema, entity, rows, group, replace, purge, count), layer.failing);
      r == run.result && layer.log == old(layer.log) + run.actions
  {
    ghost var plan := TagUploadPlan(schema, entity, rows, group, replace, purge, count);
    ghost var start := layer.log;
    TagUploadPlanOrder(schema, entity, rows, group, replace, purge, count);
    var table := entity.TableName();
    var ok := Issue(layer, Connect, start, plan, 0);
    if !ok { return Failure(Connect); }
    var prepare := Run(PrepareTagUpload(schema, entity.UploadTableName(), table));
    ok := Issue(layer, prepare, start, plan, 1);
    if !ok { return Failure(prepare); }
    ok := Issue(layer, Commit, start, plan, 2);
    if !ok { return Failure(Commit); }
    ok := Issue(layer, Disconnect, start, plan, 3);
    if !ok { return Failure(Disconnect); }
    var insert := TagInsert(schema, entity, rows, group);
    ok := Issue(layer, insert, start, plan, 4);
    if !ok { return Failure(insert); }
    ok := Issue(layer, Connect, start, plan, 5);
    if !ok { return Failure(Connect); }
    var countQuery := Run(CountTags(schema, table));
    ok := Issue(layer, countQuery, start, plan, 6);
    if !ok { return Failure(countQuery); }

    r := FinishUpload(layer, schema, entity, rows, group, replace, purge, count, start, plan);
  }

  /** The rest of `upload_tags` once the target has been counted: the backup
      and truncate, the merge, the purge and the clean-up. */
  method FinishUpload(layer: Layer, schema: string, entity: EntityType, ghost rows: seq<TagRow>, ghost group: string,
                      replace: bool, purge: bool, count: nat, ghost start: seq<Action>, ghost plan: seq<Action>)
    returns (r: Result<(), Action>)
    requires plan == TagUploadPlan(schema, entity, rows, group, replace, purge, count)
    requires layer.log == start + plan[..7]
    requires forall i :: 0 <= i < 7 ==> plan[i] !in layer.failing
    modifies layer
    ensures var run := Execute(plan, layer.failing);
      r == run.result && layer.log == start + run.actions
  {
    TagUploadPlanOrder(schema, entity, rows, group, replace, purge, count);
    var table := entity.TableName();
    var ok;
    ghost var k := 7;
    if count > 0 {
      var backup := Run(BackupTags(schema, entity.RestoreTableName(), table));
      ok := Issue(layer, backup, start, plan, k);
      if !ok { return Failure(backup); }
      k := k + 1;
      if replace {
        var truncate := Run(TruncateTags(schema, table));
        ok := Issue(layer, truncate, start, plan, k);
        if !ok { return Failure(truncate); }
        k := k + 1;
      }
    }

    r := MergeAndClose(layer, schema, entity, rows, group, replace, purge, count, start, plan, k);
  }

  /** The end of `upload_tags`: the merge, the purge pair when purging, the
      drop of the upload table and the commit, from the plan's call `k` on. */
  method MergeAndClose(layer: Layer, schema: string, entity: EntityType, ghost rows: seq<TagRow>, ghost group: string,
                       ghost replace: bool, purge: bool, ghost count: nat, ghost start: seq<Action>,
                       ghost plan: seq<Action>, ghost k: nat)
    returns (r: Result<(), Action>)
    requires plan == TagUploadPlan(schema, entity, rows, group, replace, purge, count)
    requires k == 7 + (if count > 0 then 1 else 0) + (if count > 0 && replace then 1 else 0)
    requires layer.log == start + plan[..k]
    requires forall i :: 0 <= i < k ==> plan[i] !in layer.failing
    modifies layer
    ensures var run := Execute(plan, layer.failing);
      r == run.result && layer.log == start + run.actions
  {
    TagUploadPlanOrder(schema, entity, rows, group, replace, purge, count);
    var table := entity.TableName();
    var ok;
    ghost var j := k;
    var merge := RunMerge(TagMerge(schema, entity));
    ok := Issue(layer, merge, start, plan, j);
    if !ok { return Failure(merge); }
    j := j + 1;
    if purge {
      var purgeQuery := Run(PurgeTags(schema, table, entity.TagColumnNames()));
      ok := Issue(layer, purgeQuery, start, plan, j);
      if !ok { return Failure(purgeQuery); }
      j := j + 1;
      var convert := Run(ConvertEmptySubtags(schema, table, entity.Value()));
      ok := Issue(layer, convert, start, plan, j);
      if !ok { return Failure(convert); }
      j := j + 1;
    }
    var drop := Run(DropTagUpload(schema, entity.UploadTableName()));
    ok := Issue(layer, drop, start, plan, j);
    if !ok { return Failure(drop); }
    j := j + 1;
    ok := Issue(layer, Commit, start, plan, j);
    if !ok { return Failure(Commit); }
    assert j + 1 == |plan|;
    assert plan[..j + 1] == plan;
    ExecuteCompletes(plan, layer.failing);
    return Success(());
  }
}
