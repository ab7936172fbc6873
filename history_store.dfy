/**
 * The `history` collection of the document store: the saved runs, in
 * insertion order. Records are added one at a time and never changed.
 */
module HistoryStore {

  import opened Wrappers
  import opened Payload

  /** The identifier the store gives an inserted record. */
  type RecordId = nat

  /** A saved run as stored, with the server's timestamp and the store's id. */
  datatype Run = Run(
    id: RecordId,
    input: string,
    steps: seq<StepSnapshot>,
    results: seq<StepResult>,
    sessionId: Option<string>,
    createdAt: nat)

  class HistoryCollection {
    /** The stored runs, oldest insertion first. */
    var records: seq<Run>

    /** An empty collection. */
    constructor ()
      ensures records == []
    {
      records := [];
    }

    /** Inserts one record; nothing already stored changes. */
    method InsertOne(run: Run)
      modifies this
      ensures records == old(records) + [run]
    {
      records := records + [run];
    }
  }
}
