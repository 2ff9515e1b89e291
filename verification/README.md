# Credit-score prediction Lambda — Dafny model

This project models the pure core of a small AWS Lambda service (`src/app.py`) that predicts a
credit score from an applicant's attributes:

- the **feature normaliser** (`_normalise_value`, `prepare_payload`). It walks the fixed
  18-entry `FEATURE_ORDER` and looks up each key in the payload dict. It fails on the first
  absent key. Each value is coerced: a string containing `.` becomes a float, any other string
  becomes an int, and a non-string passes through unchanged;
- the **daily CSV audit log** built by `write_real_data_to_s3`. The payload is enriched with
  `credit_score_prediction`, `timestamp` and `model_version`. Without a stored file, the new
  content is a synthesized header and one row. With one, it is the stored header and rows plus
  one appended row. A stored file with no line is an error;
- the **handler**'s decisions. It takes the payload from the gateway `body` or the direct
  `data`. It answers 400 with the error text when normalisation or prediction fails, and 200
  with the prediction and `MODEL_INFO["version"]` otherwise.

Modules, leaf first:

| file | module | models |
|---|---|---|
| `wrappers.dfy` | `Wrappers` | `Option` and `Result` |
| `errors.dfy` | `Errors` | the exceptions raised and their `str()` text |
| `values.dfy` | `Values` | tagged payload values, `_normalise_value` |
| `records.dfy` | `Records` | a Python dict as an insertion-ordered association list |
| `features.dfy` | `Features` | `FEATURE_ORDER`, `prepare_payload` |
| `text.dfy` | `Text` | `sep.join` and `splitlines`; `Split`, splitting on one separator, defines `splitlines` and states the round trips |
| `auditlog.dfy` | `AuditLog` | the enriched record and the new log content |
| `handler.dfy` | `Handler` | envelope extraction, response selection, uncaught faults |

Abstractions:

- A value is `Str(s) | Int(i) | Flt(x)`. Number parsing is a pair of partial functions returning
  `Option` (`Values.Parsers`); `None` stands for the `ValueError` of `int()`/`float()`.
- The model is an opaque `seq<Value> -> Result<real, string>`. The version, `str()` of a value
  and `json.loads` of the gateway body are also parameters (`Handler.Env`).
- The stored log is an `Option<string>`: `None` is S3's `NoSuchKey`. The new content is the
  result, instead of a `put_object` call.
- The timestamp is an input.

Two exceptions escape the handler because they are raised outside its `try`, and the order of
the feature checks decides which fault is reported:

- `json.loads` of the gateway body runs before the handler's `try` (src/app.py:172-174). An
  undecodable body is an exception that escapes the handler, not a 400 response.
- `write_real_data_to_s3` runs after the `try` (src/app.py:189-190). An empty stored log
  (src/app.py:125-126) therefore escapes the handler too, instead of becoming a 400 response.
  `Handler.Handle` returns `Failure` in both cases.
- The first reported error is that of the first feature, in training order, whose step fails.
  A step fails when the key is absent or its value does not parse. An earlier unparsable value
  is reported before a later absent key.

## Model

| member | source | states |
|---|---|---|
| Values.NormaliseValue | src/app.py:83-87 | a string with '.' yields a float-tagged value or a float parse error; any other string yields an int-tagged value or an int parse error; a non-string is returned unchanged; a success is never a string |
| Values.NormaliseIdempotent | src/app.py:83-87 | normalising an already normalised value gives it back unchanged |
| Records.Keys | src/app.py:129 | `dict.keys()`: one key per entry, entry i's key at position i |
| Records.Vals | src/app.py:131 | `dict.values()`: one value per entry, entry i's value at position i |
| Records.Lookup | src/app.py:95-97 | the `key not in data` test fails, so `data[key]` yields a value, exactly when the key is among the dict's keys |
| Records.Put | src/app.py:114-119 | assigning an existing key keeps the key order; assigning a new key appends the pair at the end |
| Records.PutLookup | src/app.py:114-119 | after assignment the key reads as the new value and every other key reads as before |
| Records.PutInPlace | src/app.py:114-119 | in a dict with distinct keys, assignment rewrites the key's entry where it stands, leaves all other entries in place, and keeps the keys distinct |
| Records.LookupFindsMember | src/app.py:95-97 | with distinct keys, a lookup returns x exactly when the pair (key, x) is in the dict |
| Records.LookupIgnoresOrder | src/app.py:94-97 | two dicts holding the same pairs in any insertion order answer every lookup alike |
| Features.FeatureStep | src/app.py:95-97 | one loop step fails with the key's missing-feature error exactly when the key is absent, and otherwise normalises the stored value |
| Features.PrepareKeys | src/app.py:90-99 | succeeds exactly when every key's step succeeds, then with one entry per key in key order; otherwise fails with the error of the first failing step; a missing-feature error names a listed key that is absent |
| Features.PreparePayload | src/app.py:90-99 | succeeds exactly when every feature is present and parses; the vector has 18 numeric entries and entry i is the normalised value of FEATURE_ORDER[i]; errors are only missing-feature or parse errors, and a missing-feature error names an absent feature |
| Features.FirstFaultReported | src/app.py:94-97 | the error is that of the first feature in training order that is absent or unparsable; with every earlier feature fine, an absent feature is reported by name |
| Features.EmptyPayloadMissesAge | src/app.py:94-96 | an empty payload fails with the missing-feature error for `Age` |
| Features.PrepareKeysReadsOnlyKeys | src/app.py:94-97 | two dicts that agree on the listed keys give the same result or the same error |
| Features.ExtraKeyIgnored | src/app.py:94-97 | adding or changing a payload entry whose key is not a feature leaves the vector or error unchanged |
| Features.InputOrderIgnored | src/app.py:90-99 | the payload's own key order does not affect the vector or the error |
| Features.PrepareKeysPassesThrough | src/app.py:85-97 | a dict whose keys are exactly the listed keys, in order, with numeric values yields its own values |
| Features.NumericPayloadPassesThrough | src/app.py:85-99 | a payload listing the 18 features in order with numeric values is passed to the model as its own values |
| Errors.Message | src/app.py:183-187 | `str(exc)` of each fault, shown in the 400 body; no contract of its own: MissingAgeMessage and Handler.EmptyPayloadRejected state the missing-feature text |
| Errors.MissingAgeMessage | src/app.py:96 | the missing-feature message for `Age` reads "Feature 'Age' missing from payload." |
| Text.Join | src/app.py:129-132 | `sep.join(parts)`; no contract of its own: Text.SplitJoin and Text.SplitLinesJoin state that splitting undoes it, and Split's contract that it undoes splitting |
| Text.Split | src/app.py:124 | splitting gives at least one piece, no piece holds the separator, and joining the pieces gives the text back |
| Text.SplitJoin | src/app.py:129-132 | joining separator-free pieces and splitting the result gives the same pieces |
| Text.SplitLines | src/app.py:124 | the lines of a text are empty exactly for the empty text, no line holds a line break, and the lines joined with a line break give back the text less one final line break |
| Text.SplitLinesJoin | src/app.py:124-132 | newline-joined single-line text with a non-empty last line reads back as the same lines |
| AuditLog.Enrich | src/app.py:114-119 | the enriched record maps the three audit fields to the prediction, timestamp and version, and agrees with the payload on every other key |
| AuditLog.EnrichKeyOrder | src/app.py:114-119 | the payload keys come first in their order; a payload without audit fields gets `credit_score_prediction`, `timestamp`, `model_version` appended in that order |
| AuditLog.EnrichInPlace | src/app.py:114-119 | a payload key named like an audit field is overwritten in place, not duplicated, and the enriched record keeps distinct keys |
| AuditLog.EnrichHasAuditFields | src/app.py:114-119 | the enriched record has at least three entries |
| AuditLog.Header | src/app.py:129 | the header for a new file, the record's keys joined with commas; no contract of its own: HeaderRowAligned states that it splits back into the keys |
| AuditLog.Rendered | src/app.py:131 | `map(str, enriched.values())`: one rendered field per entry, entry i's value rendered at position i |
| AuditLog.Row | src/app.py:131 | the new CSV row, the rendered values joined with commas; no contract of its own: HeaderRowAligned states that it splits back into the rendered values, aligned with the header |
| AuditLog.HeaderRowAligned | src/app.py:129-131 | without commas in keys or rendered values, the header splits into the record's keys and the row into its rendered values: one column per entry, aligned by position |
| AuditLog.NewLines | src/app.py:124-132 | no stored file gives header plus row; a stored file keeps its header and rows in order and gains one row; a stored file with no line is the empty-log error |
| AuditLog.WriteContent | src/app.py:121-132 | the write fails, with the empty-log error, exactly when the stored file exists and is empty |
| AuditLog.FirstWrite | src/app.py:128-132 | with no stored file, the written content splits into exactly the header and one row |
| AuditLog.AppendWrite | src/app.py:122-132 | with a stored non-empty file, the written content reads back as the stored lines unchanged plus the new row |
| AuditLog.SequentialWritesKeepBoth | src/app.py:121-132 | two writes in sequence on one day leave the first writer's header and both rows |
| Handler.ExtractPayload | src/app.py:171-176 | an event with a body takes the decoded body's `data`, else the event's `data`, defaulting to an empty dict; an undecodable body fails |
| Handler.EnvelopesAgree | src/app.py:171-176 | a gateway event whose body decodes to an object with `data` d is extracted as d and handled exactly like a direct event carrying d, whatever direct `data` it also holds |
| Handler.Predict | src/app.py:178-180 | prediction succeeds exactly when the payload normalises and the model answers; otherwise the error is the normaliser's or the model's |
| Handler.Handle | src/app.py:167-201 | status is 400 exactly when normalisation or prediction fails, with the error's message and nothing written; otherwise 200 with the prediction and the loaded version, and the log written; only an undecodable body or an empty stored log escapes |
| Handler.SuccessAppendsAuditRow | src/app.py:178-201 | a 200 answer writes a log that reads back as header plus row, or the stored lines plus one row |
| Handler.EmptyPayloadRejected | src/app.py:172-187 | `{"data": {}}` or an event without data is answered 400 with "Feature 'Age' missing from payload." |
| Handler.ExtraMemberKeepsPrediction | src/app.py:178-180 | a non-feature payload member does not change the prediction outcome |
| Handler.NumericPayloadAnswered | tests/app_test.py:13-42 | the test's direct invocation with numeric features is answered 200 with the model's prediction and the loaded version |

## Left out

- S3 `get_object`/`put_object` (src/app.py:122-134): network I/O. The stored text is an input and the new text is the result. Storage failures other than `NoSuchKey` are not modelled.
- `publish_metrics` (src/app.py:137-161): CloudWatch network I/O. The model assumes it succeeds.
- The lost-update race between concurrent invocations on the same day's file: a concurrency concern. Only sequential writes are modelled.
- Cold-start loading (src/app.py:43-53): `joblib.load`, the metadata file read and the boto3 clients are foreign library and filesystem calls. They become the `Env` parameter.
- Real `int()`/`float()` parsing and `str()` of values: numeric and formatting details. They are the given functions `Parsers` and `show`.
- `datetime.now()`, `strftime` and the per-day object key (src/app.py:109-112): a clock. The timestamp is an input, and the caller passes the stored text of the matching day.
- `json.loads`/`json.dumps`, logging and the response's JSON text. The response body is a structured value and the headers are reduced to the content type.
- Values.NormaliseValue: only string, int and float values are modelled. JSON booleans, `null`, lists and nested objects are not.
- Handler.ExtractPayload: a `data` member that is not an object, and a `body` member that is not a string, are not modelled.
- Errors.Message: the int/float parse messages are CPython's builtin texts with the value quoted plainly, without `repr` escaping, and the `int()` message does not cut the quoted literal at 200 characters as CPython's `%.200R` does, so for long or escaped values the 400 text differs.
- Text.SplitLines: only "\n" is a line boundary. Python's `splitlines` also splits on "\r", "\r\n", "\v", "\f", "\x1c"-"\x1e", "\x85", U+2028 and U+2029.
- AuditLog.FirstWrite: the read-back property assumes no key or rendered value contains a line break; the source does no CSV quoting.
- AuditLog.AppendWrite: the read-back property makes the same no-line-break assumption.
- AuditLog.HeaderRowAligned: column alignment is stated only when no key or rendered value contains a comma, since the source does no CSV quoting.
- AuditLog.SequentialWritesKeepBoth: the same no-line-break assumption, for both records.
- Handler.SuccessAppendsAuditRow: the same no-line-break assumption, for the enriched record.
