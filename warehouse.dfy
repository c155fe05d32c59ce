/** The warehouse layer, seen from the upload and tagging code: every call
    into it (connect, disconnect, commit, the autocommit switch, running a
    query or a merge, bulk-inserting a frame) is an action appended to the
    layer's log. Which calls raise is decided by the warehouse, so it is a
    set of actions fixed when the layer is made: an action in that set is
    logged as attempted and then raises. */
module Warehouse {
  import opened Wrappers
  import opened Dicts
  import opened Queries
  import Base
  import TagFrames

  /** The bulk-insert switches the uploader passes through unchanged. */
  datatype InsertOptions = InsertOptions(acceptInvalidCharacters: bool, emptyAsNull: bool, transformDataFrame: bool)

  datatype Action =
    | Connect
    | Disconnect
    | Commit
    | EnableAutocommit
    | Run(query: Query)
    | RunMerge(merge: MergeQuery)
    | RunMergeReplace(mergeReplace: MergeReplaceQuery)
    | InsertDataFrame(schema: Option<string>, table: string, columns: seq<string>, rowCount: nat,
                      transforms: Option<Dict<Base.PdDtype>>, options: InsertOptions)
    | InsertTags(tagSchema: string, tagTable: string, tagColumns: seq<string>, rows: seq<TagFrames.TagRow>,
                 uploadGroup: string)

  class Layer {
    var log: seq<Action>
    const failing: set<Action>

    constructor (failing: set<Action>)
      ensures log == [] && this.failing == failing
    {
      this.log := [];
      this.failing := failing;
    }

    /** Calls into the warehouse; `ok` is false when the call raised. */
    method Perform(a: Action) returns (ok: bool)
      modifies this
      ensures log == old(log) + [a]
      ensures ok == (a !in failing)
    {
      log := log + [a];
      ok := a !in failing;
    }
  }
}
