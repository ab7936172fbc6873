/**
 * How the pieces fit together: the engine's save request is always
 * accepted, the stored record copies it, and the history endpoint gives
 * the record back unchanged.
 */
module EndToEnd {

  import opened Wrappers
  import opened Catalog
  import opened Pipeline
  import opened Payload
  import opened Engine
  import opened HistoryStore
  import opened RunRoute
  import opened HistoryRoute

  /**
   * The request the engine submits after a run passes the endpoint's
   * validation, and the record stored for it is the run: the input, the
   * steps as `{type, label}` in pipeline order, the results in step order
   * (no more results than steps) and the session id.
   */
  lemma SavedRunMatchesExecution(input: string, steps: seq<Step>, chat: (nat, string) -> Outcome,
                                 results: seq<StepResult>, calls: seq<string>,
                                 sessionId: string, now: nat, newId: RecordId)
    requires IsExecution(input, steps, chat, results, calls) && input != []
    ensures HasRequiredFields(SavePayload(input, steps, results, sessionId))
    ensures var run := MakeRun(SavePayload(input, steps, results, sessionId), now, newId);
            && run.input == input && run.results == results && run.sessionId == Some(sessionId)
            && |run.results| <= |run.steps| == |steps|
            && (forall i :: 0 <= i < |steps| ==> run.steps[i] == StepSnapshot(steps[i].kind, steps[i].labelText))
            && (forall i :: 0 <= i < |run.results| ==> run.results[i].stepId == steps[i].id)
  {
    forall i | 0 <= i < |results| ensures results[i].stepId == steps[i].id {
      assert StepRecorded(input, steps, chat, results, calls, i);
    }
  }

  /**
   * Round trip: a record that a valid history answer holds under the id
   * the store gave a submission has that submission's input, steps,
   * results and session id, and the server's timestamp.
   */
  lemma RoundTrip(before: seq<Run>, body: RunBody, now: nat, newId: RecordId, r: seq<Run>, x: Run)
    requires HasRequiredFields(body)
    requires forall y :: y in before ==> y.id != newId
    requires IsNewestFirst(before + [MakeRun(body, now, newId)], r, HistoryLimit)
    requires x in r && x.id == newId
    ensures Some(x.input) == body.input && Some(x.steps) == body.steps
    ensures Some(x.results) == body.results && x.sessionId == body.sessionId
    ensures x.createdAt == now
  {
    var after := before + [MakeRun(body, now, newId)];
    AnswerIsStored(after, r, HistoryLimit, x);
    assert x !in before;
  }

  /**
   * A single "Clean Text" step on "  hello   world  " whose call returns
   * "hello world" records that text; once saved with a timestamp later than
   * every stored run, it is the first run the history endpoint returns.
   */
  lemma CleanTextScenario(input: string, step: Step, chat: (nat, string) -> Outcome,
                          results: seq<StepResult>, calls: seq<string>,
                          before: seq<Run>, sessionId: string, now: nat, newId: RecordId)
    requires input == "  hello   world  "
    requires step.kind == CleanText && step.prompt == Lookup(CleanText).defaultPrompt
    requires IsExecution(input, [step], chat, results, calls)
    requires chat(0, Lookup(CleanText).defaultPrompt + InputSeparator + input) == Ok("hello world")
    requires forall y :: y in before ==> y.createdAt < now
    ensures results == [StepResult(step.id, "hello world")]
    ensures calls == [Lookup(CleanText).defaultPrompt + InputSeparator + input]
    ensures var run := MakeRun(SavePayload(input, [step], results, sessionId), now, newId);
            Recent(before + [run], 1) == [run]
  {
    SingleStepAnswered(input, step, chat, results, calls, "hello world");
    var run := MakeRun(SavePayload(input, [step], results, sessionId), now, newId);
    NewestRunComesFirst(before, run, 1, Recent(before + [run], 1));
  }
}
