# Job search result pipeline — Dafny model

The application is a Flask page. A user posts a job title and a location. The
handler `index()` runs one SerpApi Google Jobs search and keeps the first ten
results. For each result it computes a short summary (`summarize_description`):
it asks an OpenRouter chat model when a client is configured and the
description is truthy, and otherwise uses a fixed text. It flattens the
variably-shaped `job_highlights` field into one string and builds a flat
`job_data` record. When the database is configured, it inserts the record
into a Supabase `jobs` table as soon as it is built. The page shows the list of
records, or an error message.

This project models that pipeline:

- `wrappers.dfy`: `Option` and `Result`.
- `text.dfy`: the Python string operations the handler relies on. These are
  `", ".join` (with `split` as its inverse), `str.strip()` and the decimal
  rendering of an index.
- `pyvalue.dfy`: the JSON values a search response holds, as Python sees them.
  It covers truthiness, `type(v).__name__`, `dict.get`, `str(v)` and the way
  `", ".join` raises `TypeError` on a non-string item.
- `highlights.dfy`: highlights flattening. A function gives the result; a
  method runs the dict branch's loop, as the source does.
- `summary.dfy`: the decision tree of `summarize_description`.
- `records.dfy`: the construction of one `job_data` record, defaults included.
- `search.dfy`: the POST path of `index()`. A function `Respond` gives the
  outcome of one request. The method `Index` runs the loop and is proved equal
  to it.

The outside world comes in as parameters. `Config` says which credentials and
clients exist. `Services` gives the search outcome, and for the result at
position i the outcome of its summarization call and of its insert. Python's
`str()` of a non-string value is the parameter `show`.

Four behaviours of the code are easy to misread:

- Flattening is not total. In a dict of highlights, a list value that holds a
  non-string makes `", ".join` raise `TypeError`. So does `detected_extensions`
  being present but not a dict (`AttributeError` on `.keys()`). The outer
  handler catches either exception, so the whole request shows no records and
  an error (`Highlights.FlattenedFails`, `Records.RecordFailure`,
  `Search.FaultEmptiesTheList`).
- An empty description with no summarization client gives
  "Summarization unavailable.", not "No description provided.". The client is
  checked first (`Summary.NoCallNoDependence`).
- Record fields are copied from the raw result as they are. A present `None`
  stays `None`, and a nested value stays nested. Only `summary`, `extensions`
  and `job_highlights` are always strings (`Records.RecordDefaults`).
- When processing fails part-way, the records built before the failure have
  already been handed to the table. Only the returned list is all-or-nothing
  (`Search.FaultEmptiesTheList`).

## Model

| member | source | states |
|---|---|---|
| `Text.SplitJoin` | app.py:174 | a `", "`-join of at least one part, where no part holds `", "`, splits back into exactly those parts: the join adds separators and nothing else |
| `Text.StripSpec` | app.py:87 | `strip()` removes only whitespace, and only at the two ends; the result neither starts nor ends with whitespace |
| `Text.StripIdempotent` | app.py:87 | stripping a stripped summary changes nothing |
| `PyValue.JoinValues` | app.py:174 | definition of `", ".join` over collected values, raising on the first non-str item; its promise is `JoinValuesSpec` |
| `PyValue.JoinValuesSpec` | app.py:174 | `", ".join` over collected values succeeds exactly when every value is a str, and then gives the join of their texts; otherwise it raises the `TypeError` that names the first non-str item |
| `PyValue.Rendered` | app.py:176 | the string forms of a flat list: one per item, in order, where a str is its own form |
| `Highlights.FlattenHighlights` | app.py:164-178 | the dict branch's extend/append loop, followed by the join, gives exactly the flattening function, for every shape of highlights |
| `Highlights.Flattened` | app.py:164-178 | definition of the flattening, by shape, with `Pieces` and `Contribution` giving the dict branch's collected values; its promises are `FlattenedFails`, `PiecesAppend`, `PiecesMembers`, `PiecesIgnoreKeys`, `DictPiecesRecoverable` and `ListItemsRecoverable` |
| `Highlights.PiecesAppend` | app.py:169-173 | entries are taken in insertion order: the pieces of two runs of entries are the first run's pieces followed by the second's |
| `Highlights.PiecesMembers` | app.py:169-173 | a value is a collected piece if and only if it is an element of some list value or is some str value; other value types are skipped |
| `Highlights.PiecesIgnoreKeys` | app.py:169 | keys never contribute: entries with the same values in the same order give the same pieces whatever their keys |
| `Highlights.FlattenedFails` | app.py:164-178 | flattening fails if and only if the field is a dict and one of its list values holds a non-str, and the failure is a `TypeError`; a flat list, a string, another shape and the missing key (default `{}`) always give a string |
| `Highlights.DictPiecesRecoverable` | app.py:166-174 | for a dict, the result is the collected pieces joined with `", "`; when there is at least one piece and none holds `", "`, splitting the result gives back the pieces in order |
| `Highlights.ListItemsRecoverable` | app.py:175-176 | for a flat list, the result is the items' string forms joined with `", "`; when the list is not empty and no form holds `", "`, splitting the result gives back those forms in order |
| `Summary.Summarize` | app.py:69-93 | definition of `summarize_description`, with the call outcome as an input; its promises are `NoCallNoDependence`, `CalledSummary` and `SummaryIsTotal` |
| `Summary.NoCallNoDependence` | app.py:71-75 | with no client, or with a falsy description, the summary does not depend on what the call would give. It is "Summarization unavailable." when there is no client, checked first, and otherwise "No description provided." |
| `Summary.CalledSummary` | app.py:78-93 | once the call is made: no choices gives "Could not generate summary."; a raised exception or a None content gives "Error during summarization."; a content gives its stripped form |
| `Summary.SummaryIsTotal` | app.py:69-93 | no exception escapes: the summary is one of the four fixed texts or the stripped reply content |
| `Records.MakeRecord` | app.py:158-190 | definition of one turn of the loop up to the append: the `job_data` literal and the exceptions raised while building it; its promises are `RecordFailure`, `RecordDefaults` and `ExtensionsAreKeys` |
| `Records.Extensions` | app.py:187 | definition of the extensions field: the keys of `detected_extensions` joined, or an `AttributeError` on a value that is not a dict; its promises are `RecordFailure` and `ExtensionsAreKeys` |
| `Records.RecordFailure` | app.py:164-187 | a record fails to build if and only if the highlights cannot be joined or `detected_extensions` is present and not a dict; the highlights `TypeError` is reported when both go wrong, and the other failure is an `AttributeError` |
| `Records.RecordDefaults` | app.py:158-190 | missing keys give: None for company and title, the request location, "" for the description, "Unknown" for `via`, "" for the extensions, "" for the highlights. Present keys (a present None included) are copied. The summary is that of the stored description |
| `Records.ExtensionsAreKeys` | app.py:187 | the extensions are the keys of `detected_extensions` joined with `", "`, in insertion order; when there is at least one key and none holds `", "`, they can be split back into them |
| `Search.Kept` | app.py:157 | `serpapi_jobs[:10]`: the first min(n, 10) results, unchanged |
| `Search.Attempts` | app.py:157-190 | what the loop body would give for each kept result: one attempt per result, the k-th built from the k-th result with the k-th summarization outcome |
| `Search.Build` | app.py:157-191 | definition of the loop over the kept results: records in order until the first exception; its promises are `BuildSpec`, `BuildStops`, `BuildFaultAt`, `BuildFaultFree` and `BuildAlike` |
| `Search.Respond` | app.py:134-216 | definition of one POST request, with `Finish` giving the response once the loop has ended; its promises are `Index`, `MissingKeySkipsSearch`, `FirstTenInOrder`, `NoErrorIffAllBuild`, `FaultEmptiesTheList`, `ErrorMeansNoRecords`, `InsertOutcomesIsolated` and `ReplyOutcomesIsolated` |
| `Search.BuildSpec` | app.py:157-191 | the loop builds one record per result, in order, each the record of the result at that position. It stops at the first result whose record cannot be built; without a fault there is one record for every kept result |
| `Search.BuildStops` | app.py:157-191 | once an exception has ended the loop on a prefix, later results change nothing |
| `Search.BuildFaultAt` | app.py:157-191 | when f is the first attempt that raised, the loop stops with that exception after the f records before it |
| `Search.BuildFaultFree` | app.py:157-191 | the loop ends without an exception if and only if every attempt built a record |
| `Search.SavedSpec` | app.py:194-205 | the records reported saved are handed records, at most all of them. They are all of them when every insert succeeded, and none when none did |
| `Search.SavedAllOnlyIfAllSaved` | app.py:194-205 | all handed records are reported saved if and only if every insert reported success |
| `Records.ProcessJob` | app.py:158-190 | the loop body, as the handler runs it, gives the record-construction function |
| `Search.RunAttempt` | app.py:158-190 | one turn of the loop body, run as the handler runs it, gives the attempt at that position |
| `Search.Persist` | app.py:194-207 | with a database each record is handed to the table and reported saved when its insert says so; without one nothing changes |
| `Search.RunLoop` | app.py:156-212 | the handler's loop over the kept results, with its per-record hand-off and its exit on an exception, gives exactly the outcome `Finish` assigns to `Build` of the attempts |
| `Search.Index` | app.py:134-216 | the handler, with its key check, its search and its loop, gives exactly the request outcome `Respond` |
| `Search.MissingKeySkipsSearch` | app.py:139-141 | without a SerpApi key the result is no records and "SerpApi API Key is not configured.", whatever the search would have given |
| `Search.FirstTenInOrder` | app.py:157-212 | a request without an error shows exactly min(n, 10) records, the k-th built from the k-th result; with a database each was handed to it |
| `Search.NoErrorIffAllBuild` | app.py:157-212 | with a key and a search that answered, the request ends without an error if and only if the record of every one of the first min(n, 10) results can be built |
| `Search.FaultEmptiesTheList` | app.py:191-216 | when the record at position f is the first that fails, the page shows no records and the prefixed exception message; the f earlier records were already handed to the table |
| `Search.ErrorMeansNoRecords` | app.py:139-216 | whenever the page shows an error (missing key, failed search, or a record that cannot be built) it shows no records |
| `Search.InsertOutcomesIsolated` | app.py:194-207 | what the table answers to each insert changes neither the returned records, nor the error, nor which records are handed to it |
| `Search.MakeRecordIgnoresReply` | app.py:160 | the summarization outcome never decides whether a record is built, nor which exception stops it; the records differ at most in their summary |
| `Search.BuildAlike` | app.py:157-191 | loops over attempts that are alike position by position stop at the same place with the same exception, and build records alike |
| `Search.ReplyOutcomesIsolated` | app.py:160 | a failing summarization call never aborts the batch: the error and the records, but for their summaries, are the same whatever the calls give |

## Left out

- Flask routing, form reading and template rendering (app.py:129-141, 229). The GET path, which shows an empty list and no error, is not modelled. The form's location comes in as `Option<string>`.
- Environment loading and client construction (app.py:11-67). `Config` records only whether each client exists.
- The SerpApi, OpenRouter and Supabase calls (app.py:79-84, 151-153, 197). Their outcomes are inputs. A search outcome is either a raised exception or the list at `jobs_results`; a missing key becomes `[]`. The prompt text and the model name are not modelled.
- The insert-success check on `count[1]` (app.py:199): it only chooses a log line. An insert is an opaque success, failure or exception.
- `save_to_excel` (app.py:96-126): its call is commented out at app.py:210, and it is file I/O with a wall-clock date.
- All `print` logging. The one exception is the choice at app.py:199-203 between the "saved" and "not saved" log lines: `Response.saved` records which records drew the "saved" line.
- Search results that are not JSON objects, and a `jobs_results` value that is not a list. On these the handler raises inside its try block. The exception is an empty-string `jobs_results`: slicing it gives an empty string, so the page shows an empty list and no error. Only the first ten results are ever read, so a non-object after them changes nothing. The model always receives a list of objects.
- JSON floats. Numbers are integers: only their truthiness and type name are observed.
- Python's `str()` of a non-string value (a list, a dict or a number in a flat highlights list) is the parameter `show`, not modelled rendering.
