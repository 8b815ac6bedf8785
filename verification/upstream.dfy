/**
 * The exchange between the proxy and the upstream API in `ProxyHandler.handle_chat_completion`
 * (openrouterfreescanner/proxy.py): the inbound body, the upstream requests and their outcomes,
 * the reply to the client, and `FailoverTrace`, which describes one run of the failover loop.
 */
module Upstream {
  import opened Basics
  import opened Text
  import opened Catalog
  import opened ModelStats

  /** A JSON value of the request body; only strings are ever written into it (the `model` field). */
  datatype Json = JStr(s: string) | JRaw(text: string)

  /** The inbound body: not JSON at all, JSON that is not an object (with the Python type name of
      the decoded value: `list`, `str`, `int`, `float`, `bool` or `NoneType`), or an object. */
  datatype RequestBody = InvalidJson | NotAnObject(typeName: string) | JsonObject(fields: map<string, Json>)

  datatype Header = Header(name: string, value: string)

  /** What one upstream `requests.post` produced: an exception, or a response. */
  datatype Outcome = TransportFailure(reason: string) | Response(status: int, text: string, headers: seq<Header>)

  /** One upstream attempt: its outcome and the clock value at which it finished, which is the
      time its `record_error` stamps and at which the next `get_best_model` runs. */
  datatype Attempt = Attempt(outcome: Outcome, clock: real)

  /** One upstream request: the selected model, the JSON payload sent, the Authorization header sent. */
  datatype UpstreamCall = UpstreamCall(model: string, payload: map<string, Json>, authorization: string)

  /** The reply written to the client: an error page (`send_error`) or a relayed upstream response. */
  datatype Reply = ErrorPage(status: int, message: string) | Relay(status: int, body: string, headers: seq<Header>)

  /** One call into the tracker made by the loop. */
  datatype StatEvent = ErrorRecorded(id: string) | SuccessRecorded(id: string)

  /** The result of handling one request: the reply, the tracker afterwards, the upstream calls
      made and the tracker updates made, both in order. */
  datatype Handled = Handled(reply: Reply, stats: Stats, calls: seq<UpstreamCall>, events: seq<StatEvent>)

  /** The cap on attempts per request. */
  const MaxRetries: nat := 3

  /** `min(3, len(models_list))`. */
  function AttemptBudget(pool: seq<ModelInfo>): (n: nat)
    ensures n <= MaxRetries && n <= |pool|
    ensures n == MaxRetries || n == |pool|
  {
    if |pool| < MaxRetries then |pool| else MaxRetries
  }

  /** The rate-limit test: status 429, or any status from 400 up whose lower-cased body contains
      "rate" anywhere (so "generate" and "moderate" count too). */
  predicate RateLimited(status: int, text: string): (b: bool)
    ensures b <==> status == 429 || (status >= 400 && OccursIn(Lower(text), "rate"))
  {
    ContainsIffOccurs(Lower(text), "rate");
    status == 429 || (status >= 400 && Contains(Lower(text), "rate"))
  }

  /** The outcomes that count against a model's health and lead to another attempt. */
  predicate Retryable(o: Outcome) {
    o.TransportFailure? || RateLimited(o.status, o.text)
  }

  /** Transport-framing headers, compared case-insensitively, are not copied to the client. */
  predicate IsFramingHeader(name: string) {
    Lower(name) == "transfer-encoding" || Lower(name) == "connection"
  }

  /** The upstream headers forwarded to the client, in their order. */
  function ForwardableHeaders(headers: seq<Header>): (r: seq<Header>)
    ensures IsSubsequence(r, headers)
    ensures forall h :: h in r <==> h in headers && !IsFramingHeader(h.name)
    ensures forall h :: multiset(r)[h] == if IsFramingHeader(h.name) then 0 else multiset(headers)[h]
    decreases |headers|
  {
    if |headers| == 0 then []
    else
      var rest := ForwardableHeaders(headers[1..]);
      assert headers == [headers[0]] + headers[1..];
      if IsFramingHeader(headers[0].name) then rest else [headers[0]] + rest
  }

  /** The only header sent with a rate-limit response relayed after the last attempt. */
  const JsonContentType: seq<Header> := [Header("Content-Type", "application/json")]

  /** `auth_header.replace('Bearer ', '').strip()`: the credential forwarded upstream. */
  function ForwardedKey(authorization: string): (k: string)
    ensures |k| <= |authorization|
    ensures |k| == 0 || (!IsSpace(k[0]) && !IsSpace(k[|k| - 1]))
  {
    Strip(RemoveAll(authorization, "Bearer "))
  }

  /** A header "Bearer <key>" whose key holds no "Bearer " forwards the key stripped of white
      space, so exactly `key` when it has none at its ends. */
  lemma ForwardedKeyOfBearer(key: string)
    requires !Contains(key, "Bearer ")
    ensures ForwardedKey("Bearer " + key) == Strip(key)
    ensures |key| == 0 || (!IsSpace(key[0]) && !IsSpace(key[|key| - 1])) ==> ForwardedKey("Bearer " + key) == key
  {
    var header := "Bearer " + key;
    assert StartsWith(header, "Bearer ");
    assert header[|"Bearer "|..] == key;
    RemoveAllAbsent(key, "Bearer ");
    if |key| == 0 || (!IsSpace(key[0]) && !IsSpace(key[|key| - 1])) {
      StripUntouched(key);
    }
  }

  /** The upstream request for `model`: the client's JSON with `model` overwritten. */
  function Request(fields: map<string, Json>, model: string, key: string): (c: UpstreamCall)
    ensures c.model == model && "model" in c.payload && c.payload["model"] == JStr(model)
    ensures c.authorization == "Bearer " + key
    ensures forall f :: f in fields && f != "model" ==> f in c.payload && c.payload[f] == fields[f]
    ensures c.payload.Keys == fields.Keys + {"model"}
  {
    UpstreamCall(model, fields["model" := JStr(model)], "Bearer " + key)
  }

  /** How the last attempt of a request ended, given its outcome `o` on model `id`,
      after `n` attempts out of a budget of `budget`. */
  predicate Concluded(h: Handled, o: Outcome, id: string, n: nat, budget: nat)
    requires n >= 1
  {
    match o
    case TransportFailure(reason) =>
      && n == budget && |h.events| == n && h.events[n - 1] == ErrorRecorded(id)
      && h.reply == ErrorPage(502, "Bad Gateway: " + reason)
    case Response(status, text, headers) =>
      if RateLimited(status, text) then
        && n == budget && |h.events| == n && h.events[n - 1] == ErrorRecorded(id)
        && h.reply == Relay(status, text, JsonContentType)
      else if status == 200 then
        && |h.events| == n && h.events[n - 1] == SuccessRecorded(id)
        && h.reply == Relay(200, text, ForwardableHeaders(headers))
      else
        && |h.events| == n - 1
        && h.reply == Relay(status, text, ForwardableHeaders(headers))
  }

  /** Every upstream call is for a model of the pool, with that model written into the client's
      fields and the forwarded credential. */
  predicate CallsWellFormed(calls: seq<UpstreamCall>, pool: seq<ModelInfo>, fields: map<string, Json>, key: string) {
    forall i :: 0 <= i < |calls| ==> calls[i] == Request(fields, calls[i].model, key) && calls[i].model in IdsOf(pool)
  }

  /** The first `n - 1` attempts were retried, and each recorded one error for the model it called. */
  predicate RetriedBefore(h: Handled, attempts: seq<Attempt>, n: nat)
    requires n <= |h.calls| && n <= |attempts|
  {
    && (forall i :: 0 <= i < n - 1 ==> Retryable(attempts[i].outcome))
    && n - 1 <= |h.events|
    && (forall i :: 0 <= i < n - 1 ==> h.events[i] == ErrorRecorded(h.calls[i].model))
  }

  /** What the failover loop promises about one request it served with model `first` and a
      budget of `budget` attempts: between 1 and `budget` upstream calls, each for a model of the
      pool with that model written into the payload; every attempt but the last failed in a way
      that is retried and recorded exactly one error for its model; and the last attempt decides
      the reply and its own record call. */
  predicate FailoverTrace(h: Handled, pool: seq<ModelInfo>, fields: map<string, Json>, key: string,
                          first: string, budget: nat, attempts: seq<Attempt>)
  {
    var n := |h.calls|;
    && 1 <= n <= budget && n <= |attempts|
    && h.calls[0].model == first
    && CallsWellFormed(h.calls, pool, fields, key)
    && RetriedBefore(h, attempts, n)
    && Concluded(h, attempts[n - 1].outcome, h.calls[n - 1].model, n, budget)
  }

  /** Putting a request for a pool model in front of requests for pool models, all built from
      the same fields and key, keeps every request well formed. */
  lemma PrependCall(calls: seq<UpstreamCall>, call: UpstreamCall, pool: seq<ModelInfo>, fields: map<string, Json>, key: string)
    requires call == Request(fields, call.model, key) && call.model in IdsOf(pool)
    requires CallsWellFormed(calls, pool, fields, key)
    ensures CallsWellFormed([call] + calls, pool, fields, key)
  {
    forall i | 0 < i < |calls| + 1
      ensures ([call] + calls)[i] == calls[i - 1]
    {
    }
  }

  /** The retried attempt in front of the retried attempts of the rest of the loop. */
  lemma PrependRetry(h: Handled, rest: Handled, attempts: seq<Attempt>, call: UpstreamCall, n: nat)
    requires 2 <= n <= |attempts| && n == |rest.calls| + 1
    requires h.calls == [call] + rest.calls && h.events == [ErrorRecorded(call.model)] + rest.events
    requires Retryable(attempts[0].outcome)
    requires RetriedBefore(rest, attempts[1..], n - 1)
    ensures RetriedBefore(h, attempts, n)
  {
    forall i | 0 < i < n - 1
      ensures attempts[i] == attempts[1..][i - 1]
      ensures h.events[i] == rest.events[i - 1]
      ensures h.calls[i] == rest.calls[i - 1]
    {
    }
  }

  /** The rest of the loop's conclusion is the conclusion of the whole loop, one attempt later. */
  lemma ConcludedShift(h: Handled, rest: Handled, e: StatEvent, o: Outcome, id: string, m: nat, budget: nat)
    requires m >= 1 && budget >= 1
    requires Concluded(rest, o, id, m, budget - 1)
    requires h.reply == rest.reply && h.events == [e] + rest.events
    ensures Concluded(h, o, id, m + 1, budget)
  {
    assert |h.events| == |rest.events| + 1;
    if |rest.events| == m {
      assert h.events[m] == rest.events[m - 1];
    }
  }

  /** An attempt that failed in a retried way, followed by a trace of the remaining attempts,
      is a trace of the whole loop. */
  lemma RetryExtendsTrace(h: Handled, rest: Handled, call: UpstreamCall, pool: seq<ModelInfo>, fields: map<string, Json>,
                          key: string, id: string, next: string, remaining: nat, attempts: seq<Attempt>)
    requires 1 < remaining <= |attempts|
    requires Retryable(attempts[0].outcome)
    requires call == Request(fields, id, key) && id in IdsOf(pool)
    requires FailoverTrace(rest, pool, fields, key, next, remaining - 1, attempts[1..])
    requires h == Handled(rest.reply, rest.stats, [call] + rest.calls, [ErrorRecorded(id)] + rest.events)
    ensures FailoverTrace(h, pool, fields, key, id, remaining, attempts)
  {
    var n := |h.calls|;
    var m := |rest.calls|;
    PrependCall(rest.calls, call, pool, fields, key);
    PrependRetry(h, rest, attempts, call, n);
    assert attempts[n - 1] == attempts[1..][m - 1];
    assert h.calls[n - 1] == rest.calls[m - 1];
    ConcludedShift(h, rest, ErrorRecorded(id), attempts[n - 1].outcome, h.calls[n - 1].model, m, remaining);
  }

  /** A single well-formed call for a pool model, concluded by the first attempt, is a trace. */
  lemma SingleCallTrace(h: Handled, pool: seq<ModelInfo>, fields: map<string, Json>, key: string,
                        id: string, budget: nat, attempts: seq<Attempt>)
    requires 1 <= budget <= |attempts|
    requires id in IdsOf(pool)
    requires h.calls == [Request(fields, id, key)]
    requires Concluded(h, attempts[0].outcome, id, 1, budget)
    ensures FailoverTrace(h, pool, fields, key, id, budget, attempts)
  {
  }
}
