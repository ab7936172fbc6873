/**
 * The execution engine (`runWorkflow` in app/page.tsx): runs the pipeline
 * step by step against the language model, feeding each step's output into
 * the next step's prompt, stops at the first failure, and then builds the
 * one request that saves the run.
 */
module Engine {

  import opened Wrappers
  import opened Catalog
  import opened Pipeline
  import opened Payload

  /** What one call to the language model gives: its text, or a failure of any kind. */
  datatype Outcome = Ok(text: string) | Fail

  /** The output recorded for a step whose call failed. */
  const ErrorSentinel: string := "Error executing step."

  /** The text placed between a step's instruction and its input. */
  const InputSeparator: string := "\n\nInput Text:\n"

  /** The prompt sent for a step: its instruction, the separator, then the carried text. */
  function RenderPrompt(instruction: string, carried: string): (p: string)
    ensures |p| == |instruction| + |InputSeparator| + |carried|
    ensures p[..|instruction|] == instruction && p[|p| - |carried|..] == carried
    ensures p[|instruction|..|instruction| + |InputSeparator|] == InputSeparator
  {
    instruction + InputSeparator + carried
  }

  /** The output a step records for a reply: the model's text verbatim, or the sentinel on failure. */
  function OutputOf(reply: Outcome): (out: string)
    ensures reply.Ok? ==> out == reply.text
    ensures reply.Fail? ==> out == ErrorSentinel
  {
    match reply
    case Ok(text) => text
    case Fail => ErrorSentinel
  }

  /** The text fed into step i: the input for the first step, the previous step's output after that. */
  function Carried(input: string, results: seq<StepResult>, i: nat): string
    requires i <= |results|
  {
    if i == 0 then input else results[i - 1].output
  }

  /**
   * Step j of a run was executed as the engine does it: its result carries
   * the step's id, its prompt is the step's instruction followed by the
   * carried text, and its output is the model's reply or the sentinel.
   */
  ghost predicate StepRecorded(input: string, steps: seq<Step>, chat: (nat, string) -> Outcome,
                               results: seq<StepResult>, calls: seq<string>, j: nat)
  {
    && j < |results| && j < |calls| && j < |steps|
    && results[j].stepId == steps[j].id
    && calls[j] == RenderPrompt(steps[j].prompt, Carried(input, results, j))
    && results[j].output == OutputOf(chat(j, calls[j]))
  }

  /** Recording a further step leaves what was recorded for step j as it was. */
  lemma StepRecordedExtends(input: string, steps: seq<Step>, chat: (nat, string) -> Outcome,
                            results: seq<StepResult>, calls: seq<string>, r: StepResult, c: string, j: nat)
    requires StepRecorded(input, steps, chat, results, calls, j)
    ensures StepRecorded(input, steps, chat, results + [r], calls + [c], j)
  {
    assert (results + [r])[j] == results[j] && (calls + [c])[j] == calls[j];
    assert Carried(input, results + [r], j) == Carried(input, results, j);
  }

  /**
   * The run that the engine performs on `input` and `steps`, given the
   * language model's reply `chat(i, p)` to its i-th call with prompt `p`:
   * `calls` are the prompts sent, `results` the outputs recorded.
   */
  ghost predicate IsExecution(input: string, steps: seq<Step>, chat: (nat, string) -> Outcome,
                              results: seq<StepResult>, calls: seq<string>)
  {
    // one call and one result per executed step, at least the first, at most all
    && 1 <= |results| <= |steps|
    && |calls| == |results|
    // alignment, prompt chaining and recorded outputs, step by step
    && (forall j :: 0 <= j < |results| ==> StepRecorded(input, steps, chat, results, calls, j))
    // fail-fast: every call before the last succeeded, and stopping early means the last one failed
    && (forall j :: 0 <= j < |calls| - 1 ==> chat(j, calls[j]).Ok?)
    && (|results| < |steps| ==> chat(|calls| - 1, calls[|calls| - 1]).Fail?)
  }

  /** The body of the save request: the input, the steps as `{type, label}`, the results and the session. */
  function SavePayload(input: string, steps: seq<Step>, results: seq<StepResult>, sessionId: string): (b: RunBody)
    ensures b.input == Some(input) && b.results == Some(results) && b.sessionId == Some(sessionId)
    ensures b.steps.Some? && |b.steps.value| == |steps|
    ensures forall i :: 0 <= i < |steps| ==>
      b.steps.value[i] == StepSnapshot(steps[i].kind, steps[i].labelText)
  {
    RunBody(Some(input),
            Some(seq(|steps|, i requires 0 <= i < |steps| => StepSnapshot(steps[i].kind, steps[i].labelText))),
            Some(results),
            Some(sessionId))
  }

  /**
   * Runs the pipeline. Returns the recorded results, the prompts sent to the
   * model in order, and the save request submitted afterwards (`None` when
   * the run did not start because the input or the pipeline was empty).
   */
  method RunWorkflow(input: string, steps: seq<Step>, sessionId: string, chat: (nat, string) -> Outcome)
    returns (results: seq<StepResult>, calls: seq<string>, save: Option<RunBody>)
    ensures input == [] || steps == [] ==> results == [] && calls == [] && save == None
    ensures input != [] && steps != [] ==>
      IsExecution(input, steps, chat, results, calls) &&
      save == Some(SavePayload(input, steps, results, sessionId))
  {
    results, calls, save := [], [], None;
    if input == [] || |steps| == 0 {
      return;
    }
    var currentText := input;
    for i := 0 to |steps|
      invariant |results| == i && |calls| == i
      invariant forall j :: 0 <= j < i ==> StepRecorded(input, steps, chat, results, calls, j)
      invariant forall j :: 0 <= j < i ==> chat(j, calls[j]).Ok?
      invariant currentText == Carried(input, results, i)
    {
      var step := steps[i];
      var fullPrompt := RenderPrompt(step.prompt, currentText);
      var reply := chat(i, fullPrompt);
      var result := StepResult(step.id, OutputOf(reply));
      forall j | 0 <= j < i
        ensures StepRecorded(input, steps, chat, results + [result], calls + [fullPrompt], j)
      {
        StepRecordedExtends(input, steps, chat, results, calls, result, fullPrompt, j);
      }
      assert Carried(input, results + [result], i) == currentText;
      results, calls := results + [result], calls + [fullPrompt];
      if reply.Fail? {
        break;
      }
      currentText := reply.text;
    }
    save := Some(SavePayload(input, steps, results, sessionId));
  }

  /** Two runs of the same pipeline against the same model agree on their first k steps. */
  lemma {:induction false} ExecutionsAgreeUpTo(input: string, steps: seq<Step>, chat: (nat, string) -> Outcome,
                                               r1: seq<StepResult>, c1: seq<string>,
                                               r2: seq<StepResult>, c2: seq<string>, k: nat)
    requires IsExecution(input, steps, chat, r1, c1) && IsExecution(input, steps, chat, r2, c2)
    requires k <= |r1| && k <= |r2|
    ensures forall j :: 0 <= j < k ==> r1[j] == r2[j] && c1[j] == c2[j]
  {
    if k > 0 {
      var j := k - 1;
      ExecutionsAgreeUpTo(input, steps, chat, r1, c1, r2, c2, j);
      assert StepRecorded(input, steps, chat, r1, c1, j) && StepRecorded(input, steps, chat, r2, c2, j);
      assert Carried(input, r1, j) == Carried(input, r2, j);
    }
  }

  /** The run is determined by the input, the pipeline and the model's replies. */
  lemma ExecutionIsDeterministic(input: string, steps: seq<Step>, chat: (nat, string) -> Outcome,
                                 r1: seq<StepResult>, c1: seq<string>,
                                 r2: seq<StepResult>, c2: seq<string>)
    requires IsExecution(input, steps, chat, r1, c1) && IsExecution(input, steps, chat, r2, c2)
    ensures r1 == r2 && c1 == c2
  {
    // On the steps both ran they agree; the shorter run stopped at a failed
    // call, which the longer run would have had to get answered.
    var n := if |r1| < |r2| then |r1| else |r2|;
    ExecutionsAgreeUpTo(input, steps, chat, r1, c1, r2, c2, n);
  }

  /**
   * Prompt chaining: the first prompt carries the input, each later prompt
   * carries the text the model returned for the previous step.
   */
  lemma PromptsChain(input: string, steps: seq<Step>, chat: (nat, string) -> Outcome,
                     results: seq<StepResult>, calls: seq<string>, i: nat)
    requires IsExecution(input, steps, chat, results, calls) && i < |calls|
    ensures i == 0 ==> calls[i] == steps[0].prompt + InputSeparator + input
    ensures i > 0 ==> chat(i - 1, calls[i - 1]).Ok? &&
                      calls[i] == steps[i].prompt + InputSeparator + chat(i - 1, calls[i - 1]).text
  {
    assert StepRecorded(input, steps, chat, results, calls, i);
    if i > 0 {
      assert StepRecorded(input, steps, chat, results, calls, i - 1);
    }
  }

  /**
   * Fail-fast: when the call for step k fails, step k is the last one run,
   * it records the sentinel, and no later step is called.
   */
  lemma FailFast(input: string, steps: seq<Step>, chat: (nat, string) -> Outcome,
                 results: seq<StepResult>, calls: seq<string>, k: nat)
    requires IsExecution(input, steps, chat, results, calls)
    requires k < |calls| && chat(k, calls[k]).Fail?
    ensures |results| == k + 1 && |calls| == k + 1
    ensures results[k] == StepResult(steps[k].id, ErrorSentinel)
  {
    assert StepRecorded(input, steps, chat, results, calls, k);
  }

  /** When the model answers every call the run makes, every step runs and each records the model's text. */
  lemma CompletesWhenModelAnswers(input: string, steps: seq<Step>, chat: (nat, string) -> Outcome,
                                  results: seq<StepResult>, calls: seq<string>)
    requires IsExecution(input, steps, chat, results, calls)
    requires forall j :: 0 <= j < |calls| ==> chat(j, calls[j]).Ok?
    ensures |results| == |steps|
    ensures forall j :: 0 <= j < |results| ==>
      results[j] == StepResult(steps[j].id, chat(j, calls[j]).text)
  {
    forall j | 0 <= j < |results|
      ensures results[j] == StepResult(steps[j].id, chat(j, calls[j]).text)
    {
      assert StepRecorded(input, steps, chat, results, calls, j);
    }
  }

  /** A one-step run whose call is answered records exactly that answer. */
  lemma SingleStepAnswered(input: string, step: Step, chat: (nat, string) -> Outcome,
                           results: seq<StepResult>, calls: seq<string>, text: string)
    requires IsExecution(input, [step], chat, results, calls)
    requires chat(0, RenderPrompt(step.prompt, input)) == Ok(text)
    ensures results == [StepResult(step.id, text)]
    ensures calls == [RenderPrompt(step.prompt, input)]
  {
    assert StepRecorded(input, [step], chat, results, calls, 0);
  }

  /**
   * A two-step run whose second call fails: both steps are recorded, the
   * first with the model's text and the second with the sentinel.
   */
  lemma SecondStepFails(input: string, s0: Step, s1: Step, chat: (nat, string) -> Outcome,
                        results: seq<StepResult>, calls: seq<string>)
    requires IsExecution(input, [s0, s1], chat, results, calls)
    requires chat(0, RenderPrompt(s0.prompt, input)) == Ok("S")
    requires chat(1, RenderPrompt(s1.prompt, "S")) == Fail
    ensures results == [StepResult(s0.id, "S"), StepResult(s1.id, ErrorSentinel)]
    ensures calls == [RenderPrompt(s0.prompt, input), RenderPrompt(s1.prompt, "S")]
  {
    assert StepRecorded(input, [s0, s1], chat, results, calls, 0);
    assert |results| == 2;
    assert StepRecorded(input, [s0, s1], chat, results, calls, 1);
  }
}
