/**
 * The run-saving endpoint (POST in app/api/workflow/run/route.ts): checks
 * that the body has its required fields, then stores one record with the
 * server's timestamp and answers with the new record's id.
 */
module RunRoute {

  import opened Wrappers
  import opened Payload
  import opened HistoryStore

  /** What an endpoint answers: a body with status 200, or an error status and message. */
  datatype Response<T> = Success(body: T) | Error(status: nat, message: string)

  const StatusBadRequest: nat := 400
  const StatusServerError: nat := 500
  const MissingFields: string := "Missing required fields"
  const InternalError: string := "Internal Server Error"

  /**
   * The body's `input`, `steps` and `results` are all truthy: present, and
   * for `input` not the empty string. An empty array is truthy, so empty
   * `steps` or `results` pass; `sessionId` is not looked at.
   */
  predicate HasRequiredFields(body: RunBody): (ok: bool)
    ensures body.input.None? || body.input == Some("") ==> !ok
    ensures body.steps.None? || body.results.None? ==> !ok
    ensures body.input.Some? && body.input.value != "" && body.steps.Some? && body.results.Some? ==> ok
  {
    body.input.Some? && body.input.value != "" && body.steps.Some? && body.results.Some?
  }

  /** The record built from a valid body: its fields copied, with the server's id and time. */
  function MakeRun(body: RunBody, now: nat, newId: RecordId): (run: Run)
    requires HasRequiredFields(body)
    ensures Some(run.input) == body.input && Some(run.steps) == body.steps
    ensures Some(run.results) == body.results && run.sessionId == body.sessionId
    ensures run.id == newId && run.createdAt == now
  {
    Run(newId, body.input.value, body.steps.value, body.results.value, body.sessionId, now)
  }

  /** Whether a body is accepted does not depend on its session id, present or not. */
  lemma SessionIdNotRequired(body: RunBody, sid: Option<string>)
    ensures HasRequiredFields(body.(sessionId := sid)) == HasRequiredFields(body)
  {
  }

  /**
   * Handles one submission. `body` is `None` when the request body is not
   * JSON; `storeUp` says whether connecting to the store and the insert
   * succeed; `now` is the server clock and `newId` the id the store assigns.
   */
  method Post(history: HistoryCollection, body: Option<RunBody>, storeUp: bool, now: nat, newId: RecordId)
    returns (resp: Response<RecordId>)
    modifies history
    ensures body.None? ==> resp == Error(StatusServerError, InternalError)
    ensures body.Some? && !HasRequiredFields(body.value) ==> resp == Error(StatusBadRequest, MissingFields)
    ensures body.Some? && HasRequiredFields(body.value) && !storeUp ==> resp == Error(StatusServerError, InternalError)
    ensures resp.Success? <==> body.Some? && HasRequiredFields(body.value) && storeUp
    ensures resp.Success? ==>
      resp.body == newId && history.records == old(history.records) + [MakeRun(body.value, now, newId)]
    ensures !resp.Success? ==> history.records == old(history.records)
  {
    if body.None? {
      return Error(StatusServerError, InternalError);
    }
    var b := body.value;
    if !HasRequiredFields(b) {
      return Error(StatusBadRequest, MissingFields);
    }
    if !storeUp {
      return Error(StatusServerError, InternalError);
    }
    var run := MakeRun(b, now, newId);
    history.InsertOne(run);
    return Success(newId);
  }
}
