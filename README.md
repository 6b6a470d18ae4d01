# Text-to-speech request handler, in Dafny

This project models `process_tts`, the Lambda handler of a text-to-speech API
(teste/handler.py). The handler reads a phrase from the request body and
derives a unique id for it. It looks the id up in a DynamoDB table. On a hit
it echoes the stored record back. On a miss it has Polly synthesize the audio
and stores it in S3, and only then writes a record for the id. Any exception
becomes a 500 response.

Files:
- `wrappers.dfy` (module `Wrappers`): `Option` and `Result`.
- `tts.dfy` (module `Tts`): the data model and `Process`. The data model
  covers decoded JSON values and their Python truthiness, the table record,
  the event, the collaborators' behaviour on one request (`Env`), the log of
  collaborator calls and the response. `Process` is one request as a function
  of the table, the event and `Env`. `Replay` runs a sequence of requests one
  after another.
- `service.dfy` (module `Service`): class `Handler`. It holds the injected id
  function, the table and a ghost log of collaborator calls. Its imperative
  `ProcessTts` goes through the steps of the source in order. Its contract
  says that the response, the new table and the calls it made are exactly
  those of `Tts.Process`.
- `properties.dfy` (module `TtsProperties`): the branch-by-branch promises
  for one request, and inductive lemmas over sequential runs.

Collaborators become inputs:
- `generate_unique_id` is a `Value -> Id` function supplied to the handler.
  Any such function is deterministic. Nothing is assumed about collisions.
- Whether `generate_unique_id`, `get_item`, the synthesis step or `put_item` raises, and the URL
  the synthesis step returns, are fields of `Env`.
- The two clock readings are fields of `Env`, already formatted. One is taken
  inside `save_to_dynamodb`, the other for the miss response. They are never
  claimed equal.

Behaviour of the code worth noting:
- Validation is Python truthiness (`not phrase`). Nothing is trimmed, so a
  whitespace-only phrase such as `"   "` passes.
- A truthy phrase that is not a string (a number, a list) passes validation.
- A body that does not decode as JSON gives 500.
- A body that decodes to something other than an object has no `.get`. That
  gives 500.
- The 400 body is the fixed message "Frase não fornecida".

## Model

| member | source | states |
|---|---|---|
| `Tts.Truthy` | teste/handler.py:50 | The falsy phrases are exactly null, false, zero, and the empty string, array and object. |
| `Tts.ReadPhrase` | teste/handler.py:38-50 | An event without a body has no phrase. The read raises exactly when the body does not decode or is not a JSON object. An accepted phrase is the truthy value stored under 'phrase', unchanged. |
| `Tts.Process` | teste/handler.py:33-105 | Status is 200, 400 or 500, and 200 exactly when the body reports audio. A stored record is never changed or removed. The table changes only by adding one record for an id that was absent, on a 200 that reports that id, phrase and url. A table whose items all sit under their own id stays so. Synthesis is called only for an id absent from the table. Every save comes right after a successful synthesis of the same phrase and id, with the url that synthesis returned. |
| `Tts.Replay` | teste/handler.py:33-105 | Requests handled one after another give one response each. The table never loses a key, and items stay under their own id. |
| `Service.Handler.constructor` | teste/dynamodb_operations.py:5-7 | Stands for the module-level `table` global and the imported `generate_unique_id`: the handler starts with the given table and id function and an empty call log. |
| `Service.Handler.GetFromDynamodb` | teste/dynamodb_operations.py:21-28 | A raising `get_item` is a failure. Otherwise the result is the stored record for the id, or None exactly when the id is absent. |
| `Service.Handler.SaveToDynamodb` | teste/dynamodb_operations.py:10-18 | Unless `put_item` raises, the table afterwards maps the id to a record of the id, phrase, url and save-time clock, overwriting any item there. If it raises, the table is unchanged and the error is returned. Items stay under their own id. |
| `Service.Handler.ProcessTts` | teste/handler.py:33-105 | The response and the new table are those of `Tts.Process` on the old table. The call log grows by exactly that request's collaborator calls, in order. |
| `TtsProperties.NoPhraseWhenAbsentOrFalsy` | teste/handler.py:38-50 | The request has no phrase exactly when the event has no body, or the decoded object lacks 'phrase', or its 'phrase' is falsy. |
| `TtsProperties.StringPhraseAcceptedIffNonEmpty` | teste/handler.py:48-50 | A string phrase passes exactly when it is non-empty. `"   "` passes unchanged. |
| `TtsProperties.MissingPhraseTouchesNothing` | teste/handler.py:50-57 | Without a phrase the response is 400 "Frase não fornecida". No id is generated, no lookup or synthesis is made, and the table is unchanged. |
| `TtsProperties.UnreadableBodyIsServerError` | teste/handler.py:38-48 | A body that does not decode, or is not a JSON object, gives 500 "Internal Server Error". Nothing is called and the table is unchanged. |
| `TtsProperties.IdFailureStopsBeforeLookup` | teste/handler.py:60 | A raising id generation gives 500 after only that call. Nothing is looked up, synthesized or written. |
| `TtsProperties.LookupFailureIsNotAMiss` | teste/handler.py:64 | A raising lookup gives 500 after only id generation and the lookup. Nothing is synthesized or written. |
| `TtsProperties.HitEchoesStoredRecord` | teste/handler.py:64-77 | On a hit the response is 200 with the stored `received_phrase`, `url_to_audio` and `created_audio` verbatim and the generated `unique_id`. No synthesis happens and the table is unchanged. |
| `TtsProperties.MissSynthesizesThenSaves` | teste/handler.py:78-95 | On a miss the calls are exactly: generate id, lookup, synthesize (phrase, id), save (phrase, id, url). If the save succeeds, the response is 200 with the input phrase, the url and the id, and the table gains that record. If the save raises, the response is 500 and the table is unchanged. |
| `TtsProperties.SynthesisFailureKeepsTable` | teste/handler.py:80-84 | A raising synthesis gives 500. The save is never called, the table is exactly as before, and the id stays absent. |
| `TtsProperties.SuccessLeavesRecord` | teste/handler.py:64-95 | After a 200, the table holds a record for the phrase's id with the url that was reported. |
| `TtsProperties.SecondCallServedFromCache` | teste/handler.py:60-84 | After a 200 for a phrase, a second call with the same phrase (unless its id generation or lookup raises) is a 200 with the same id and url. It makes only the id and lookup calls and writes nothing. |
| `TtsProperties.ReplayKeepsRecords` | teste/handler.py:67-84 | Over any sequential run, every record present at the start is still present and unchanged at the end. |
| `TtsProperties.ReplayWritesEachIdOnce` | teste/handler.py:67-84 | Over any sequential run, each id is written at most once and never when already stored. The final keys are the initial keys plus exactly the written ids. |
| `TtsProperties.CachedNeverResynthesized` | teste/handler.py:67-84 | Once an id is stored, no later request in a sequential run synthesizes or saves for that id. |
| `TtsProperties.CachedServedVerbatim` | teste/handler.py:64-77 | Once an id is stored, every later request whose phrase maps to it (and whose id generation and lookup do not raise) gets that record back verbatim. |
| `TtsProperties.RunAfterSuccessReusesAudio` | teste/handler.py:60-95 | After a first 200 for a phrase, every later request for that phrase (id generation and lookup not raising) is a 200 with the same id and url. None of the later requests synthesizes for that id. |

## Left out

- `health` and `v1_description` (teste/handler.py:14-30): they build constant responses and have no logic.
- JSON decoding and encoding: `json.loads` is replaced by the decoded body in the event. Any exception it raises becomes `Malformed`, which includes a body that is null. `json.dumps` with `indent=4` is replaced by the response datatype.
- JSON numbers are reals. NaN and infinities are not modelled.
- The text of `str(e)` in a 500 body is replaced by the `Error` value that names the failing step and carries the collaborator's message.
- `strftime` formatting: clock readings are inputs and are already formatted strings.
- Logging (teste/handler.py:9-11 and the `logger` calls).
- The boto3 session and table construction are left out. `put_item` and `get_item` become a map update and a map lookup.
- SaveToDynamodb: a `put_item` that raises after the write took effect is not modelled. A raising save leaves the table as it was.
- GetFromDynamodb: a stored item missing one of the four attributes, which would raise `KeyError` on a hit, is not modelled. The only writer always writes all four.
- `generate_unique_id` (module utils) and `generate_audio_and_store_in_s3` (module polly_operations) are not part of this model. The id function is a parameter, so no collision resistance is claimed. The synthesis step is an outcome in `Env`: a url or an exception.
- Every read sees the latest write: `get_item` in the model reads the current table. `get_item` (teste/dynamodb_operations.py:22) passes no `ConsistentRead`, and DynamoDB reads are eventually consistent by default. A stale read is a miss, after which the program synthesizes again and overwrites the record with a new `created_audio`. SecondCallServedFromCache, ReplayKeepsRecords, ReplayWritesEachIdOnce, CachedNeverResynthesized, CachedServedVerbatim and RunAfterSuccessReusesAudio hold only under this read-your-writes assumption.
- Whether `generate_unique_id` accepts a non-string phrase is unknown. A truthy phrase of any kind goes to the id function, and any exception it raises is an input (`idFault`).
- HitEchoesStoredRecord, CachedServedVerbatim: boto3's handling of numbers is not modelled. For a non-string phrase containing a number, `put_item` rejects Python floats, and a stored number reads back as `Decimal`, which the `json.dumps` of the hit response rejects. The program then answers 500 where the model answers 200.
- Concurrent duplicate requests, and the check-then-act race between them, are left out. Runs are sequential.
