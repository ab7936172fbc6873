/**
 * The JSON body the client posts to the run-saving endpoint and the server
 * reads back (`{sessionId, input, steps, results}`). A field that is absent
 * or null is `None`.
 */
module Payload {

  import opened Wrappers
  import opened Catalog

  /** A saved step: its kind and label, detached from the live pipeline. */
  datatype StepSnapshot = StepSnapshot(kind: StepKind, labelText: string)

  /** The output of one executed step, tagged with that step's id. */
  datatype StepResult = StepResult(stepId: string, output: string)

  /** The request body of a run submission. */
  datatype RunBody = RunBody(
    input: Option<string>,
    steps: Option<seq<StepSnapshot>>,
    results: Option<seq<StepResult>>,
    sessionId: Option<string>)
}
