# openrouter-free-scanner: the routing and failover core, in Dafny

openrouter-free-scanner fetches the free models of the OpenRouter catalog, narrows and orders them
(`filter_models`, `sort_models`), and serves them behind an OpenAI-compatible proxy. For each
`POST /v1/chat/completions` the proxy picks a model with `ModelStats.get_best_model`,
forwards the request upstream, and, when the upstream reports a rate limit or the transport
fails, records an error and retries with the model `get_best_model` picks next. That can be the
model that just failed. It makes at most `min(3, len(models_list))` attempts per request. A
per-model health tracker (`ModelStats`) counts errors and successes. It locks a model out once it
reaches `error_threshold` errors. When the model is next probed more than 300 seconds after its last
error, those errors are forgiven. Available models are ranked by success rate.

The Dafny project models this core as pure functions over immutable values:

- `basics.dfy` (`Basics`): `Option` and order-preserving subsequences.
- `text.dfy` (`Text`): the string operations the core relies on:
  - ASCII `lower`;
  - `in` on strings, with the scan proved equal to the textbook substring definition;
  - `replace(pat, '')`;
  - `strip`.
- `catalog.dfy` (`Catalog`): a model descriptor and `filter_models`.
  - Each active criterion is one order-preserving pass.
  - The three guarded comprehensions are proved to be one pass with every active criterion.
  - Their order does not matter, and filtering is idempotent.
- `sorting.dfy` (`Sorting`): `sort_models` as Python's `sorted(key=lambda x: x.get(sort_by, 0))`.
  - Keys that cannot be compared with each other raise `TypeError`.
  - Otherwise the result is a sorted, stable permutation of the input.
  - A sorted, stable arrangement is unique, so any stable sort, Python's included, agrees with the insertion sort used here.
- `model_stats.dfy` (`ModelStats`): the tracker.
  - `NewStats` is `ModelStats.__init__` (proxy.py:13-15): an empty tracker with the given threshold.
  - The constructor's default of 3 is not modelled, because the proxy always passes the threshold (proxy.py:275).
  - The clock is an explicit `now: real` argument.
  - `is_model_available` returns its answer together with the tracker it leaves behind, since it can reset a cooled-down model's errors.
  - `get_best_model` is modelled with both outcomes: the all-unavailable reset, and the first model of maximal rate.
- `upstream.dfy` (`Upstream`): the exchange with the upstream API.
  - Upstream outcomes are a transport failure or a response.
  - It covers the rate-limit test, the header filter, the forwarded credential and the upstream request.
  - `FailoverTrace` describes the calls, record calls and reply of one run of the failover loop.
- `replay.dfy` (`Replay`): how one run of the loop moves the tracker.
  - `TrackerTrace` replays the run's record calls, each retry followed by the `get_best_model` that picks the next call's model.
  - The replay is stated for any reselection step, and instantiated with the proxy's own.
- `chat_completion.dfy` (`ChatCompletion`): `handle_chat_completion`.
  - Checks run in order: JSON parse (400), `Bearer ` prefix (401), selection (503), then the bounded failover loop.
  - The loop is a recursive function over a supplied sequence of upstream attempts. Each attempt carries the clock value its `record_error` and reselection use.
- `scenarios.dfy` (`Scenarios`): concrete requests worked through the whole handler.

The proxy is a plain single-threaded `HTTPServer` (openrouterfreescanner/proxy.py:278), so one
request is one function from the tracker to the tracker.

### Behaviours of the code worth knowing

- **A retry can go to the same model.** After a failure the code records the error and calls `get_best_model` again (proxy.py:182-186, 215-218). Nothing excludes the model that just failed. Take pool `[a, b]` with threshold 5, where `b` already holds one error and no success. After a 429 from `a`, both are available and rated 0.0, and `max` returns `a`, the first of equal rates. `ChatCompletion.FailoverTracksStats` states the retry target only as that reselection's choice.
- **Relay of an exhausted rate limit.** When the last attempt is rate-limited, the code sends the upstream status and body with only a `Content-Type: application/json` header (proxy.py:193-196). The upstream's other headers are dropped. `Concluded` states exactly that.
- **When 503 happens.** When no model is available, `get_best_model` empties the tracker and returns `models[0]` (proxy.py:50-53). So the 503 of proxy.py:152-154 happens only for an empty pool.
- **Concurrency.** The server is the single-threaded `HTTPServer` and the tracker has no lock, so requests are handled one after another.
- **A threshold of 0.** With `error_threshold` 0, a model that has been seen but never failed is unavailable: its errors are not below 0, and it has no error time to cool down from. So one success on a new model locks it out (`ModelStats.ZeroThresholdSuccessLocksOut`).
- **Log lines can end a request.** `log_message` (proxy.py:79-81) formats each message with `format % args`, where `args` is empty.
  - The handler logs text from outside the proxy. At proxy.py:160 it logs the client's `model` field and the selected id. At proxy.py:181 it logs the rate-limited upstream body. At proxy.py:189 and proxy.py:202 it logs the next or the successful id. At proxy.py:214 it logs the transport error text.
  - A `%` in that text that is not half of a `%%` makes the formatting raise `TypeError` or `ValueError`. A 429 whose body is "quota 100% used" is an example.
  - The transport-error `except` (proxy.py:213) does not catch that, so the request ends in the catch-all 500 (proxy.py:228-230). Only the record calls made before the failing log line stay in effect. At proxy.py:160 no upstream call is made at all. At proxy.py:181 and proxy.py:214 the error is not recorded and nothing is retried.
- **The rate-limit test.** The code checks for the substring "rate" in the lower-cased body of any status of 400 or more. So "Failed to generate" counts as a rate limit (`Scenarios.GenerateCountsAsRateLimit`).

## Model

| member | source | states |
|---|---|---|
| ModelStats.RecordError | openrouterfreescanner/proxy.py:17-23 | a missing record is created zeroed; that record gets exactly one more error and `last_error = now`; every other record and the threshold are unchanged |
| ModelStats.RecordSuccess | openrouterfreescanner/proxy.py:25-30 | a missing record is created zeroed; that record gets exactly one more success, with its errors and `last_error` kept; every other record is unchanged |
| ModelStats.RecordErrorsCount | openrouterfreescanner/proxy.py:17-23 | k consecutive errors add k to the error count, keep the successes, and leave `last_error` at the time of the last one |
| ModelStats.IsModelAvailable | openrouterfreescanner/proxy.py:32-44 | an unseen id is available and the tracker unchanged; a record with a set `last_error` older than 300 s is available and only its errors become 0; otherwise the answer is exactly `errors < error_threshold` and the tracker is unchanged |
| ModelStats.ForgiveKeepsAvailability | openrouterfreescanner/proxy.py:39-44 | resetting a cooled-down record's errors never changes whether any model is available |
| ModelStats.ProbeAll | openrouterfreescanner/proxy.py:48 | the comprehension keeps, in list order, exactly the available models, and leaves every cooled-down record of the list forgiven |
| ModelStats.SuccessRate | openrouterfreescanner/proxy.py:56-66 | the rate lies in [0, 1]; an unseen model and a record with no attempts rate 1.0 |
| ModelStats.FirstMaximal | openrouterfreescanner/proxy.py:68 | `max` with a key returns the first element whose rate is maximal: nothing later rates higher, everything earlier rates lower |
| ModelStats.GetBestModel | openrouterfreescanner/proxy.py:46-68 | with no model available the tracker is emptied and the result is the list's first model, or none for an empty list; otherwise the cooled-down records are forgiven and the result is an available member of the list, of maximal rate among the available ones, and the earliest such |
| ModelStats.GetBestModelIdempotent | openrouterfreescanner/proxy.py:46-68 | at a fixed clock a second `get_best_model` returns the same model and leaves the tracker as the first call left it |
| ModelStats.UnseenModelRanksTop | openrouterfreescanner/proxy.py:56-68 | a model never seen is available and rated 1.0, so whenever the list holds one, the chosen model is rated 1.0 too |
| ModelStats.ThresholdErrorsLockOut | openrouterfreescanner/proxy.py:39-44 | after at least `error_threshold` consecutive errors a model is unavailable until 300 s after the last one, and available once more than 300 s have passed |
| ModelStats.RecordingMovesRate | openrouterfreescanner/proxy.py:17-30 | recording an error never raises a model's success rate, and recording a success never lowers it |
| ModelStats.SuccessKeepsAvailable | openrouterfreescanner/proxy.py:25-44 | with a positive threshold, recording a success never makes any model unavailable |
| ModelStats.ZeroThresholdSuccessLocksOut | openrouterfreescanner/proxy.py:25-44 | with a threshold of 0 or less, a never-seen model is available and its first success makes it unavailable |
| Upstream.AttemptBudget | openrouterfreescanner/proxy.py:163 | the attempt budget is 3, or the pool size when that is smaller |
| Upstream.ForwardableHeaders | openrouterfreescanner/proxy.py:206-208 | the forwarded headers are the upstream headers in their order, minus exactly those named `transfer-encoding` or `connection` in any letter case, each kept with its multiplicity |
| Upstream.RateLimited | openrouterfreescanner/proxy.py:180 | an outcome is a rate limit exactly when its status is 429, or it is at least 400 and "rate" occurs somewhere in the lower-cased body |
| Upstream.ForwardedKey | openrouterfreescanner/proxy.py:147 | the forwarded key is no longer than the header and has no white space at either end |
| Upstream.ForwardedKeyOfBearer | openrouterfreescanner/proxy.py:147 | a header `Bearer <key>` whose key holds no "Bearer " forwards the key stripped of surrounding white space, so exactly the key when it has none |
| Upstream.Request | openrouterfreescanner/proxy.py:156-175 | the upstream request carries the selected model, and `Bearer ` plus the forwarded key; its JSON has exactly the client's fields plus `model`, with only `model` overwritten |
| ChatCompletion.Failover | openrouterfreescanner/proxy.py:163-224 | the loop makes between 1 and its budget of upstream calls, the first for the model it starts on, and never changes the threshold |
| ChatCompletion.FailoverStops | openrouterfreescanner/proxy.py:192-224 | an attempt that is not retried, or the last one, is the loop's only call and decides the reply and its record call |
| ChatCompletion.FailoverYieldsTrace | openrouterfreescanner/proxy.py:163-224 | every run has 1 to `budget` calls, each for a pool model written into the client's payload, the first for the selected model; every attempt but the last was retried and recorded one error; the last one decides the reply (502 with the reason, relayed rate limit with Content-Type only, relayed 200 with one success, or any other status relayed with no record call) |
| ChatCompletion.FailoverRetryThenSuccess | openrouterfreescanner/proxy.py:179-211 | with any budget of 2 or more, a retried first attempt followed by a 200 gives exactly two calls, to the first model and to the model reselected after the error; one error then one success are recorded, the tracker ends as the reselection's tracker plus that success, and the 200 is relayed |
| ChatCompletion.FailoverTracksStats | openrouterfreescanner/proxy.py:179-224 | every run moves the tracker as its replay says: each retried attempt's error is recorded at that attempt's clock, the `get_best_model` that follows it on that tracker picks exactly the next call's model, and the tracker left behind is the last reselection's, with the final attempt's error or success recorded |
| ChatCompletion.HandleChatCompletion | openrouterfreescanner/proxy.py:133-230 | invalid JSON gives 400, then a missing `Bearer ` prefix gives 401, both with the tracker untouched; an empty pool gives 503 with the tracker emptied; a body that is not an object gives 500 "Internal error: '<type>' object has no attribute 'get'" after selection; none of these makes an upstream call or a record call; otherwise between 1 and the budget of calls |
| ChatCompletion.HandleYieldsTrace | openrouterfreescanner/proxy.py:149-224 | an authorized request with a JSON object on a non-empty pool is handled as a failover trace starting from the model `get_best_model` selects at arrival, with the forwarded key and the budget `min(3, len(pool))` |
| ChatCompletion.HandleTracksStats | openrouterfreescanner/proxy.py:149-224 | such a request moves the tracker as the replay of its loop says, starting from the tracker the arrival's `get_best_model` left |
| Replay.ChoiceAfterIsReselect | openrouterfreescanner/proxy.py:182-188 | the model picked after attempt i of a replay is the reselection on the tracker in front of attempt i after that attempt's record call |
| Catalog.ProviderOf | openrouterfreescanner/main.py:53 | the provider is the id's prefix up to, not including, its first `/`, or the whole id when there is none |
| Catalog.Satisfies | openrouterfreescanner/main.py:47-53 | a model meets the name criterion iff the lower-cased name occurs in its lower-cased name ("" when missing), the length criterion iff its context length (0 when missing) is at least the minimum, and the provider criterion iff the lower-cased provider occurs in the part of its lower-cased id before the first `/` |
| Catalog.ActiveCriteria | openrouterfreescanner/main.py:46-53 | a criterion is active exactly when its argument is present and truthy (a non-empty string, a non-zero length) |
| Catalog.KeepAll | openrouterfreescanner/main.py:47-53 | a pass keeps an order-preserving subsequence holding exactly the models that meet every criterion, each with its multiplicity |
| Catalog.FilterModels | openrouterfreescanner/main.py:31-55 | with no active criterion the list is returned unchanged; otherwise the result is an order-preserving subsequence, and a model is kept iff it meets every active criterion (the name as a case-insensitive substring of the model's name, a context length at least the minimum, the provider as a case-insensitive substring of the id's provider part) |
| Catalog.FilterStepsAreOnePass | openrouterfreescanner/main.py:44-55 | the three successive guarded comprehensions equal one pass with all the active criteria |
| Catalog.CriteriaOrderIrrelevant | openrouterfreescanner/main.py:46-53 | applying the same criteria in any order, with any repetition, gives the same list |
| Catalog.FilterModelsIdempotent | openrouterfreescanner/main.py:31-55 | filtering the result again with the same arguments changes nothing |
| Sorting.SortKey | openrouterfreescanner/main.py:69 | the key of a model is its `id`, `name`, `context_length` or other field named by `sort_by`, and the number 0 when the model lacks that field |
| Sorting.InsertionSort | openrouterfreescanner/main.py:69 | the result is a permutation of the input, sorted by key (ascending, or descending with `reverse`), and stable: every group of equal keys keeps its input order |
| Sorting.SortModels | openrouterfreescanner/main.py:57-69 | sorting succeeds iff the keys are mutually comparable (all numbers or all strings, or at most one model); then the result is a stable, sorted permutation |
| Sorting.SortUnique | openrouterfreescanner/main.py:69 | two sorted, stable arrangements of the same models are equal, so the result does not depend on which stable sort produced it |
| Sorting.SortSortedUnchanged | openrouterfreescanner/main.py:69 | the insertion sort returns a list already in order under the total key order unchanged |
| Sorting.SortModelsSortedUnchanged | openrouterfreescanner/main.py:57-69 | `sort_models` returns a list whose keys are mutually comparable and already in order unchanged |
| Sorting.SortModelsIdempotent | openrouterfreescanner/main.py:69 | sorting the sorted list again gives the same list |
| Text.ContainsIffOccurs | openrouterfreescanner/main.py:47 | the substring scan holds exactly when the pattern occurs at some index |
| Scenarios.RateLimitThenSuccess | openrouterfreescanner/proxy.py:179-211 | pool [a, b] with threshold 1: a 429 from "a" and then a 200 from "b" relay the 200 after two calls, and the tracker ends with one error on "a" and one success on "b" |
| Scenarios.NextRequestAvoidsLockedOut | openrouterfreescanner/proxy.py:39-68 | within 300 s of its error, "a" is skipped and the next request goes to "b" |
| Scenarios.CooledDownModelWins | openrouterfreescanner/proxy.py:39-68 | once more than 300 s have passed, "a" is forgiven, rated 1.0 again, and chosen as the first of equal rates |
| Scenarios.TimeoutOnOnlyModel | openrouterfreescanner/proxy.py:213-224 | a pool of one model whose only attempt times out replies 502 "Bad Gateway: read timeout" and records one error at that time |
| Scenarios.GenerateCountsAsRateLimit | openrouterfreescanner/proxy.py:180 | a 500 whose body says "Failed to generate" counts as a rate limit |
| Scenarios.ValidationErrorIsNotRateLimit | openrouterfreescanner/proxy.py:180 | a 400 whose body is "Invalid model" does not pass the rate-limit test, so it is neither recorded nor retried |

## Left out

- The HTTP plumbing:
  - `do_GET`, `do_POST` and their 404s, `/health`, `handle_list_models`, `send_response`, `wfile`, `rfile`.
  - Reading the body by `Content-Length`, and the 500 a malformed `Content-Length` causes.
  - The inbound request is a parsed `RequestBody` plus an optional Authorization value. The reply is a returned `Reply` value.
- `requests.post` and its 60-second timeout. Each attempt's outcome is a supplied value, a transport failure or a response, together with the clock value at which its follow-up runs.
- `time.time()`. The clock is an explicit value, and it is shared where the code reads it several times:
  - One `get_best_model` call probes every model at one `now`. In the code, each `is_model_available` reads the clock afresh (proxy.py:40, 48).
  - One attempt's clock value stands for both the `last_error` stamp of its `record_error` (proxy.py:23) and every read made by the reselection after it (proxy.py:186, 218).
- `get_free_models` (main.py:5-29): it fetches over the network and parses prices as floats.
- The CLIs and `start_proxy_server` (main.py:71-99, proxy.py:233-335). This includes the `[:limit]` truncation, which only shortens the pool.
- Exceptions other than the ones modelled:
  - The catch-all 500 is modelled only for a JSON body that is not an object, where `.get` fails.
  - Exceptions raised while reading an upstream response are not modelled.
- Failures of `log_message` (see "Log lines can end a request" above). The model takes every log line to format. For a client `model` field, an upstream body, a transport error text or a model id holding a lone `%`:
  - `ChatCompletion.HandleChatCompletion`, `ChatCompletion.HandleYieldsTrace` and `ChatCompletion.HandleTracksStats` do not describe the program.
  - Neither do `ChatCompletion.Failover`, `ChatCompletion.FailoverYieldsTrace` and `ChatCompletion.FailoverTracksStats`.
  - The program replies with the catch-all 500 instead, without the record calls and retries those lemmas state. Modelling this exactly would need Python's `%` format parser.
- Floating-point arithmetic. Success rates are exact rationals, so two rates that floating point would round to equal may be ordered here.
- Unicode. `lower`, `isspace` and `strip` are modelled for ASCII only.
- The two views of an upstream body. `Response.text` stands for both `response.text`, the decoded string the rate-limit test reads (proxy.py:180), and `response.content`, the bytes written to the client (proxy.py:196, 210).
  - In the code these can differ: `requests` undoes any `Content-Encoding` in `content` and decodes `text` with the response's charset.
  - The header filter drops only `transfer-encoding` and `connection` (proxy.py:207). So a compressed upstream reply reaches the client with its `Content-Encoding` and `Content-Length` headers but a decompressed body. The model relays `text` and cannot show that mismatch.
- Catalog entries with `null` or missing fields. `ModelInfo` has an `id` always, and `None` for `name` or `context_length` means only that the field is absent. `context_length` is an integer.
  - A `null` name makes `filter_models` raise `AttributeError` on `None.lower()` (main.py:47). A `null` context length raises `TypeError` on `None >= min_context_length` (main.py:50). None of these is modelled.
  - With `sort_by='name'`, a `null` name is the key `None`, and sorting with other names raises `TypeError` (main.py:69). An absent name is the key 0, which is modelled.
  - A float context length is not representable in `ModelInfo`, so the context-length criterion is modelled for integers only.
  - An entry without `id` is read as `""` by the provider criterion (main.py:53) and raises `KeyError` in `get_best_model` (proxy.py:48). Neither is modelled.
- JSON values. Only string values, the `model` field, are written into the body; other values are opaque.
- `ChatCompletion.Failover`: states its call count, its first call and the threshold only. The full behaviour is stated by `ChatCompletion.FailoverYieldsTrace` (calls, record calls, reply) and `ChatCompletion.FailoverTracksStats` (the tracker).
- Sort keys:
  - A list-valued field is treated as unorderable, so sorting by it is reported as `TypeError`. Python orders lists among themselves lexicographically.
  - A float NaN is not modelled. Python's `sorted` gives an order that depends on its position.
  - Numbers are exact reals, so integers, floats and booleans compare as numbers, as in Python.
