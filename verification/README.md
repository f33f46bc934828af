# CSV-to-JSON conversion handler: a Dafny model

The system is an AWS Lambda function. An EventBridge event reports that an object
was created in the source bucket (`CSV_BUCKET`). The function then reads that object,
converts its CSV rows to a JSON array, and writes the array to the destination bucket
(`JSON_BUCKET`). The new key is the source key with `.csv` renamed to `.json`.
Last, it publishes a notification to an SNS topic (`SNS_TOPIC_ARN`).

This project models the decision skeleton of `lambda_handler` and the key-renaming rule:

- `strings.dfy` (module `Strings`): prefix, suffix and substring tests, and Python's
  `str.replace`. That method replaces every non-overlapping occurrence, scanning left to
  right; with an empty pattern it inserts the replacement around every character.
- `keys.dfy` (module `Keys`): `JsonKey`, which is `csv_key.replace(".csv", ".json")`,
  with lemmas about what the rename does to keys.
- `handler.dfy` (module `Handler`): `Handle`, a pure function from the configuration,
  the injected services and the event to an `Invocation`. An invocation is the outcome
  (a returned `{statusCode, body}` or an escaping exception) plus the ordered list of
  external calls attempted.

The services are values of a `Services` datatype with four function-valued members.
`getObject` is the S3 read together with the UTF-8 decode; the others are `convert`,
`putObject` and `publish`. Each member returns `Done(value)` or `Fault`, and `Fault`
stands for any exception. The three environment settings are fields of a `Config` value.

The event is reduced to what the handler inspects: whether `detail` exists, whether
`detail.object` exists, and whether `detail.object.key` exists, plus its value.

`str.replace` renames every `.csv` in the key, not only a trailing one, so
`in.csv/x.csv` is stored as `in.json/x.json`. `Keys.OnlySuffixChanges` shows that a
swap of only the final `.csv` gives the same key exactly when `.csv` appears nowhere
else in the key. The rename is also not one-to-one on keys that pass the filter:
`x.json.csv` and `x.csv.csv` are both stored as `x.json.json`, so one upload overwrites
the other. `Keys.RenameCollides` shows this for every dot-free stem, and it is why
`Keys.RenameRoundTrip` requires a source key without `.json`.

## Model

| member | source | states |
|---|---|---|
| `Strings.Replace` | scripts/lambda_function.py:64 | Python's `str.replace`: every non-overlapping occurrence, left to right; no contract of its own; `ReplaceAbsent` and `ReplaceGrows` give the unchanged case and the length bound; for `.csv`→`.json`, replace-all is stated by `Keys.NoCsvRemains` and `Keys.ReplacesEveryOccurrence` |
| `Keys.JsonKey` | scripts/lambda_function.py:64 | the destination key `csv_key.replace(".csv", ".json")`; no contract of its own, characterised by `NoCsvRemains`, `UnchangedIffNoCsv`, `OnlySuffixChanges`, `CsvSuffixBecomesJson` and `RenameRoundTrip` |
| `Strings.ReplaceAbsent` | scripts/lambda_function.py:64 | `str.replace` with a non-empty pattern that does not occur returns the text unchanged |
| `Strings.ReplaceGrows` | scripts/lambda_function.py:64 | with a replacement at least as long as the pattern, the text never shrinks; it strictly grows when the pattern occurs and the replacement is longer |
| `Keys.JsonKeyOfSuffixed` | scripts/lambda_function.py:64 | renaming `p + ".csv"` gives the renamed `p` followed by `.json`; no `.csv` can straddle into the suffix |
| `Keys.CsvSuffixBecomesJson` | scripts/lambda_function.py:52-64 | every key that passes the `.csv` filter is renamed to a key ending in `.json` |
| `Keys.OnlySuffixChanges` | scripts/lambda_function.py:64 | the rename equals "swap only the final `.csv` for `.json`" if and only if `.csv` occurs nowhere else in the key |
| `Keys.UnchangedIffNoCsv` | scripts/lambda_function.py:64 | the rename leaves a key unchanged if and only if the key contains no `.csv` |
| `Keys.NoCsvRemains` | scripts/lambda_function.py:64 | the rename is a replace-all: no `.csv` is left anywhere in the destination key |
| `Keys.JsonKeyIdempotent` | scripts/lambda_function.py:64 | renaming a destination key again changes nothing |
| `Keys.RenameRoundTrip` | scripts/lambda_function.py:64 | for a key containing no `.json`, `replace(".json", ".csv")` on the destination key gives back the source key |
| `Keys.ReplacesEveryOccurrence` | scripts/lambda_function.py:64 | `a.csv.b.csv` is renamed to `a.json.b.json`, not `a.csv.b.json` |
| `Keys.ReplacesFolderOccurrence` | scripts/lambda_function.py:52-64 | for dot-free `a` and `b`, the key `a + ".csv" + b + ".csv"` passes the `.csv` filter and is renamed to `a + ".json" + b + ".json"`: an inner `.csv` changes too (for `in.csv/x.csv`, take `a = "in"`, `b = "/x"`) |
| `Keys.RenameCollides` | scripts/lambda_function.py:52-64 | for every dot-free stem `p` (say `x`), the two different keys `p.json.csv` and `p.csv.csv` both pass the `.csv` filter and are renamed to the same destination key `p.json.json` |
| `Handler.Alert` | scripts/lambda_function.py:22-31 | the notification goes to the configured topic, with subject "CSV to JSON Conversion Completed", and its message names both the destination key and the destination bucket |
| `Handler.Handle` | scripts/lambda_function.py:35-78 | every returned status is 200, 400 or 500; no call is made unless the event names a `.csv` key, and the first call reads that key from the source bucket; at most three calls; at most one publish, always right after a put that succeeded; every put goes to the destination bucket under the renamed key with content type `application/json` |
| `Handler.Process` | scripts/lambda_function.py:56-78 | once `csv_key` is bound the handler always answers, with 200 "Successfully processed <key>" or 500 "Error processing <key>"; the source read is always the first call; a 200 comes only after three calls ending in the publish |
| `Handler.BadShapeRejected` | scripts/lambda_function.py:44-49 | the answer is 400 if and only if the event lacks `detail` or `detail.object`; the body is then "Invalid event format" and no call is made |
| `Handler.MissingKeyRaises` | scripts/lambda_function.py:44-78 | the handler raises instead of answering if and only if `detail.object` exists without `key`; no call is made before it raises |
| `Handler.NonCsvSkipped` | scripts/lambda_function.py:51-54 | the answer is 200 "Not a CSV file" if and only if the key does not end in `.csv`; no call is made then |
| `Handler.SuccessTrace` | scripts/lambda_function.py:56-74 | the answer is 200 "Successfully processed <key>" if and only if the key ends in `.csv` and every step succeeds; the calls are then exactly get, put, publish, with their arguments |
| `Handler.FaultAnswered500` | scripts/lambda_function.py:56-78 | the answer is 500 if and only if the key ends in `.csv` and some step faults; the body is then "Error processing <key>" |
| `Handler.FaultStopsPipeline` | scripts/lambda_function.py:56-78 | the first faulting step is the last call made: a failed read or conversion leaves only the read; a failed put means no publish; a failed publish still follows a completed put |
| `Handler.HandleCorrected` | scripts/lambda_function.py:44-78 | the handler with the missing-key case answered 400 like the other bad shapes: it always answers, with 200, 400 or 500 |
| `Handler.CorrectedNeverRaises` | scripts/lambda_function.py:44-78 | the corrected handler always answers, and answers 400 exactly when the event names no key; on every event the original handler answers, the two agree |

## Left out

- The S3 and SNS clients and their responses are not modelled (lines 7-9, 27-31, 57, 67). They are the injected `Services` members, and each call either yields a value or faults.
- Loading the environment is not modelled (lines 11-14). A missing variable makes module loading fail before any invocation, and the model takes the three values as a `Config`.
- The CSV-to-JSON conversion is an opaque, possibly failing `convert` (lines 16-20). Its behaviour comes from Python's `csv.DictReader` and `json.dumps`, whose semantics are not part of this model.
- UTF-8 decoding (line 58) is part of `getObject`. A decode error is a fault like a failed read.
- The `print` logging is left out (lines 33, 48, 53, 69, 77). It only writes to the log, except that building line 77's message raises when `csv_key` is unbound; see `## Findings`.
- The commented-out S3 `Records` path is left out (lines 39-40) because it never runs.
- The event is assumed to be parsed JSON whose `detail`, `detail.object` and `key` values are objects and a string. Other value types (a string `detail` that happens to contain "object", a non-string key) take Python paths that are not modelled. So does an event that `json.dumps` cannot serialise on line 48.
- Concurrency across invocations is left out because the handler holds no shared state.

## Findings

| source | as written | input that shows it | evidently intended | confidence | as-written member | corrected member |
|---|---|---|---|---|---|---|
| scripts/lambda_function.py:45-78 | `event["detail"]["object"]["key"]` raises `KeyError` before `csv_key` is bound. The `except` clause then formats `csv_key` and raises `UnboundLocalError`, which escapes the handler. | an event `{"detail": {"object": {}}}` | reject the event as an unrecognised shape with 400 "Invalid event format", as for a missing `detail` or `object` | high; not executed | `Handler.MissingKeyRaises` | `Handler.HandleCorrected` (proved by `Handler.CorrectedNeverRaises`) |
