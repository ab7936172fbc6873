# Workflow Builder Lite — a Dafny model of the workflow engine

Workflow Builder Lite lets a user chain up to four text-transformation steps into a pipeline. The step kinds are clean text, summarize, extract points and tag category. The pipeline runs step by step against a language model. Each step's output becomes the next step's input, and the first failure stops the run. Every run is then saved to a `history` collection, and a history endpoint lists the newest runs.

This project models that engine and its history contract, and proves the properties the code promises:

- `catalog.dfy` (module `Catalog`): the closed set of step kinds and the catalog entry for each (label and default prompt).
- `pipeline.dfy` (module `Pipeline`): the builder's two operations, as functions on `seq<Step>`:
  - `AddStep` is capped at four steps.
  - `RemoveStep` filters steps out by id.
- `payload.dfy` (module `Payload`): the JSON body the client posts (`input`, `steps`, `results`, `sessionId`). A field that is absent or null is `None`.
- `engine.dfy` (module `Engine`): `runWorkflow` as a method with a `for` loop and a `break`. It is proved against `IsExecution`, a specification of the run that covers:
  - alignment of results with steps;
  - prompt chaining;
  - the sentinel on failure;
  - fail-fast.

  Lemmas show that this specification fixes the run uniquely, and they derive fail-fast, completion and prompt chaining from it.
- `history_store.dfy` (module `HistoryStore`): the `history` collection as a class whose `records: seq<Run>` field grows by one record per insert.
- `run_route.dfy` (module `RunRoute`): the POST handler. It validates the body, then builds and inserts one record, and returns a 200, 400 or 500 response.
- `history_route.dfy` (module `HistoryRoute`): the GET handler. Its query sorts by `createdAt`, newest first, and keeps 20 records. It is specified by `IsNewestFirst`:
  - the answer has the right size;
  - it is newest first;
  - it is a sub-multiset of the store;
  - no record left out is newer than one returned;
  - when the store holds no more than the limit, every record is returned.
- `end_to_end.dfy` (module `EndToEnd`): the whole path from engine to endpoints:
  - the engine's save request always passes validation;
  - the stored record copies the request;
  - a record returned by GET under the new id hands back what was submitted (the round trip).

Outside influences become parameters:

- The language model is `chat: (nat, string) -> Outcome`. It gives the reply to the i-th call of the run for a given prompt. A missing provider and any thrown error both count as `Fail`.
- The random step id is `freshId`.
- The session id is `sessionId`.
- The server clock (`new Date()`) is `now: nat`.
- The id the store assigns is `newId`.
- Whether the store can be reached and written is `storeUp`.

Some behaviours of the code are easy to miss:

- There is no way to edit a step's prompt after it is added: a step keeps the catalog's default prompt.
- At four steps `addStep` returns silently, with no error surfaced. `Pipeline.FifthAddIsNoOp` shows that a fifth add leaves the pipeline unchanged, so a fifth kind equal to an earlier one is still present.
- The code does not check that step ids are unique. `Pipeline.AddStepKeepsValid` needs the new id to be unused, and then proves that ids stay distinct.

## Model

| member | source | states |
|---|---|---|
| `Catalog.KindName` | app/page.tsx:29 | Each kind is written as its own step-type tag, a non-empty identifier of lower-case letters and underscores |
| `Catalog.Lookup` | app/page.tsx:39-60 | Every one of the four kinds has a catalog entry, filed under that kind, with a non-empty label and default prompt |
| `Catalog.KindNamesDistinct` | app/page.tsx:29 | The four step-type tags `clean_text`, `summarize`, `extract_points`, `tag_category` are pairwise different, so the tag identifies the kind |
| `Catalog.LabelsDistinct` | app/page.tsx:39-60 | Two kinds have the same label exactly when they are the same kind |
| `Catalog.PromptsDistinct` | app/page.tsx:39-60 | Two kinds have the same default prompt exactly when they are the same kind |
| `Pipeline.AddStep` | app/page.tsx:92-102 | At four or more steps the pipeline is returned unchanged. Otherwise exactly one step is appended, with the given id and kind and with the catalog's label and default prompt, and the earlier steps stay as they were, in order. The result never exceeds four steps unless it is the unchanged input |
| `Pipeline.RemoveStep` | app/page.tsx:104-106 | The result is no longer than the input and contains no step with the removed id. An id that is not present leaves the pipeline identical |
| `Pipeline.RemoveStepKeepsOthers` | app/page.tsx:104-106 | A step is in the result exactly when it is in the pipeline and its id differs from the removed id |
| `Pipeline.RemoveStepDistributes` | app/page.tsx:104-106 | Removal distributes over concatenation, so the kept steps keep their relative order |
| `Pipeline.RemoveStepAt` | app/page.tsx:104-106 | With distinct ids, removing the id of the step at position k gives the pipeline without that one step, and the later steps shift up |
| `Pipeline.AddStepKeepsValid` | app/page.tsx:92-102 | Adding a step whose id is not in use keeps the pipeline at most four steps long with distinct ids |
| `Pipeline.RemoveStepKeepsValid` | app/page.tsx:104-106 | Removing steps keeps the pipeline at most four steps long with distinct ids |
| `Pipeline.FifthAddIsNoOp` | app/page.tsx:92-93 | After four adds from the empty pipeline it holds four steps, in the order the kinds were requested, and a fifth add changes nothing |
| `Engine.RenderPrompt` | app/page.tsx:125 | Each prompt starts with the step's instruction and ends with the carried text, with the fixed separator `"\n\nInput Text:\n"` between them |
| `Engine.OutputOf` | app/page.tsx:125-134 | The output recorded for a step is the model's text, verbatim, when the call succeeds, and the sentinel `"Error executing step."` when it fails |
| `Engine.SavePayload` | app/page.tsx:147-152 | The save body carries the run's input, its results and the session id, plus one `{type, label}` snapshot for each pipeline step, in pipeline order |
| `Engine.RunWorkflow` | app/page.tsx:108-158 | An empty input or an empty pipeline causes no call, no results and no save. Otherwise the returned results and prompts satisfy `IsExecution`: 1 to \|steps\| results, one call per result, and `results[i].stepId == steps[i].id`. Prompt i is built from the input (for i = 0) or from the previous output. Each output is the model's text or the sentinel `"Error executing step."`. Every call but the last succeeded, and a run that stopped early stopped at a failure. Then exactly one save request is built, carrying the full results prefix |
| `Engine.ExecutionIsDeterministic` | app/page.tsx:114-138 | The input, the pipeline and the model's replies fix the results and the prompts sent |
| `Engine.PromptsChain` | app/page.tsx:114-131 | The first prompt carries the input text. Any later prompt carries the text that the model returned, successfully, for the previous step |
| `Engine.FailFast` | app/page.tsx:132-137 | If the call for step k fails, step k is the last step run: there are exactly k+1 results and k+1 calls, and the last result is the step's id with the error sentinel |
| `Engine.CompletesWhenModelAnswers` | app/page.tsx:117-131 | When the model answers every call the run actually makes, every step runs, and each records the model's text under its step id |
| `Engine.SingleStepAnswered` | app/page.tsx:117-131 | A one-step run whose call is answered records exactly that answer, after exactly one prompt |
| `Engine.SecondStepFails` | app/page.tsx:117-137 | In a two-step run whose first call returns "S" and whose second fails, both steps are recorded: "S", then the sentinel. The second prompt carries "S" |
| `HistoryStore.HistoryCollection.InsertOne` | app/api/workflow/run/route.ts:23 | Inserting appends exactly one record to the collection and changes nothing already stored |
| `RunRoute.HasRequiredFields` | app/api/workflow/run/route.ts:8 | JavaScript truthiness of the three required fields: an absent or null `input`, `steps` or `results` is rejected, and so is an empty `input` string. Any present array, even an empty one, passes together with a non-empty `input` |
| `RunRoute.MakeRun` | app/api/workflow/run/route.ts:15-21 | The stored record has the submitted `input`, `steps`, `results` and `sessionId`, unchanged, plus the server's `createdAt` and the store's id |
| `RunRoute.SessionIdNotRequired` | app/api/workflow/run/route.ts:6-10 | Whether a body is accepted does not depend on its `sessionId`, present or absent |
| `RunRoute.Post` | app/api/workflow/run/route.ts:4-30 | A body that cannot be parsed gives 500 "Internal Server Error". A missing or falsy `input`, `steps` or `results` gives 400 "Missing required fields" before the store is touched. An unreachable store gives 500. Only a valid body with a working store succeeds: it returns the new id and appends exactly the one record built from the body. On every error the collection is unchanged |
| `HistoryRoute.InsertByDate` | app/api/workflow/history/route.ts:13 | Placing a run into a newest-first list gives a newest-first list with that run added |
| `HistoryRoute.SortByDate` | app/api/workflow/history/route.ts:13 | Sorting gives a newest-first permutation of the stored runs |
| `HistoryRoute.Recent` | app/api/workflow/history/route.ts:11-15 | The query returns min(limit, \|records\|) stored records, in non-increasing `createdAt` order. Every record returned is stored, and no record left out is newer than one returned. With no more records than the limit, all records are returned. An empty store gives an empty list |
| `HistoryRoute.Get` | app/api/workflow/history/route.ts:6-22 | With a working store the endpoint answers with at most 20 records taken from all sessions, chosen as `Recent` chooses them. The client's `sessionId` query parameter is accepted but never read. A store failure gives 500 "Internal Server Error" |
| `HistoryRoute.AnswerIsStored` | app/api/workflow/history/route.ts:11-15 | Every record the query returns is a stored record |
| `HistoryRoute.InsertedRunIsReturned` | app/api/workflow/history/route.ts:14 | While fewer records than the limit are stored, every valid answer contains a newly inserted record, whatever its session |
| `HistoryRoute.NewestRunComesFirst` | app/api/workflow/history/route.ts:13 | In every valid answer, a record inserted later than every stored record comes first |
| `EndToEnd.SavedRunMatchesExecution` | app/page.tsx:143-153 | The save request of any started run passes the endpoint's validation. The record stored for it has the run's input, results and session id, and one snapshot per pipeline step in order. It has no more results than steps, and each result's stepId is that of the step at its position |
| `EndToEnd.RoundTrip` | app/api/workflow/history/route.ts:11-17 | Take any valid answer of the history query (`IsNewestFirst`, whatever order it gives to runs with equal timestamps). A record it holds under the id the store gave a submission has that submission's `input`, `steps`, `results` and `sessionId`, and the server's timestamp |
| `EndToEnd.CleanTextScenario` | app/page.tsx:117-131 | A single "Clean Text" step on "  hello   world  " whose call returns "hello world" records that text after one prompt. Once saved with a timestamp later than every stored run, a query with limit 1 returns exactly this run |

## Left out

- Rendering is left out as presentation: JSX, framer-motion animation, icons (the `icon` field of `Step` and of the catalog), `cn`/tailwind class merging, the history and status pages, `layout.tsx` and `ThemeToggle.tsx`.
- The health endpoint is left out: it returns a constant snapshot and the current time, with no logic to verify.
- The language model call (`puter.ai.chat`, `window.puter`, `response.toString()`) is a foreign, non-deterministic service. It is the parameter `chat`, whose reply is already the text.
- `fetch`, JSON encoding and decoding, `NextResponse` and the MongoDB client are I/O. The collection is an in-memory `seq<Run>`. Connection and insert failures are the single flag `storeUp`, and parse failure of the body is `None`.
- Body fields are typed. A JSON value of the wrong type (a number where a string is expected, and so on) is not modelled. Falsy values are modelled as absent or null (`None`), plus the empty string for `input`.
- `Math.random`, `crypto.randomUUID`, `new Date()` and MongoDB's `insertedId` are randomness, the clock or the store's choice. They are the parameters `freshId`, `sessionId`, `now` and `newId`. A timestamp is a `nat`, not a date.
- These UI concerns are not part of the engine's result and are left out: React state setters, the incremental `setResults`/`setActiveStepIndex` progress display, the `isRunning` button gating, and the `fetchHistory` refresh after saving.
- `Engine.RunWorkflow`: it returns the save request instead of sending it. The client ignores both the outcome of the POST and its errors (app/page.tsx:143-157), so sending nothing back loses nothing. `EndToEnd.SavedRunMatchesExecution` shows what the endpoint does with the request.
- `HistoryRoute.Recent`: its contract does not say in which order runs with equal `createdAt` appear, because the store does not fix that order. The function picks one order, and no property depends on it.
- Mongo's `insertOne` writes `_id` into the inserted object. This is modelled by the record's `id` field only.
- The `dynamic = "force-dynamic"` directive of the history route stops the answer from being cached, so every request reads the store as it is now. `HistoryRoute.Get` assumes exactly that: it reads the collection's current records.
- The `console.error` logging of a failed step, a failed save and a failed history fetch (app/page.tsx:88,133,156) and of both endpoints' errors is left out: it writes to the console and changes no result.
