/**
 * The failover loop of `ProxyHandler.handle_chat_completion` (openrouterfreescanner/proxy.py),
 * with the HTTP plumbing abstracted: the inbound request is a parsed body and an optional
 * Authorization header, each upstream attempt's outcome is taken from a supplied sequence, and
 * the reply to the client is a returned value. The server handles one request at a time, so
 * one request is one pure function from the tracker to the tracker.
 */
module ChatCompletion {
  import opened Basics
  import opened Text
  import opened Catalog
  import opened ModelStats
  import opened Upstream
  import opened Replay

  /** The `for attempt in range(max_retries)` loop, from the attempt on `current` with
      `remaining` attempts left (this one included). */
  function Failover(st: Stats, pool: seq<ModelInfo>, fields: map<string, Json>, key: string,
                    current: ModelInfo, remaining: nat, attempts: seq<Attempt>): (h: Handled)
    requires current in pool
    requires 1 <= remaining <= |attempts|
    ensures h.stats.errorThreshold == st.errorThreshold
    ensures 1 <= |h.calls| <= remaining
    ensures h.calls[0] == Request(fields, current.id, key)
    decreases remaining
  {
    var call := Request(fields, current.id, key);
    var a := attempts[0];
    var giveUp: Option<Reply> :=
      match a.outcome
      case TransportFailure(reason) => Some(ErrorPage(502, "Bad Gateway: " + reason))
      case Response(status, text, _) => if RateLimited(status, text) then Some(Relay(status, text, JsonContentType)) else None;
    if giveUp.Some? then
      var recorded := RecordError(st, current.id, a.clock);
      if remaining > 1 then
        var sel := GetBestModel(recorded, pool, a.clock);
        // `get_best_model` returns a model whenever the pool is not empty, so the
        // `if best_model:` test before `continue` always passes.
        assert sel.choice.Some? && sel.choice.value in pool;
        var rest := Failover(sel.stats, pool, fields, key, sel.choice.value, remaining - 1, attempts[1..]);
        Handled(rest.reply, rest.stats, [call] + rest.calls, [ErrorRecorded(current.id)] + rest.events)
      else
        Handled(giveUp.value, recorded, [call], [ErrorRecorded(current.id)])
    else if a.outcome.status == 200 then
      Handled(Relay(200, a.outcome.text, ForwardableHeaders(a.outcome.headers)), RecordSuccess(st, current.id), [call], [SuccessRecorded(current.id)])
    else
      Handled(Relay(a.outcome.status, a.outcome.text, ForwardableHeaders(a.outcome.headers)), st, [call], [])
  }

  /** One retried attempt: its error is recorded, a model is selected again at the attempt's
      clock, and the loop carries on with one attempt fewer. */
  lemma FailoverRetryStep(st: Stats, pool: seq<ModelInfo>, fields: map<string, Json>, key: string,
                          current: ModelInfo, remaining: nat, attempts: seq<Attempt>, sel: Selection)
    requires current in pool
    requires 1 < remaining <= |attempts|
    requires Retryable(attempts[0].outcome)
    requires sel == GetBestModel(RecordError(st, current.id, attempts[0].clock), pool, attempts[0].clock)
    ensures sel.choice.Some? && sel.choice.value in pool
    ensures var rest := Failover(sel.stats, pool, fields, key, sel.choice.value, remaining - 1, attempts[1..]);
            Failover(st, pool, fields, key, current, remaining, attempts)
            == Handled(rest.reply, rest.stats, [Request(fields, current.id, key)] + rest.calls, [ErrorRecorded(current.id)] + rest.events)
  {
    assert current in pool;
  }

  /** An attempt that is not retried, or the last one, ends the loop with this one call, its
      conclusion decided by its own outcome. */
  lemma FailoverStops(st: Stats, pool: seq<ModelInfo>, fields: map<string, Json>, key: string,
                      current: ModelInfo, remaining: nat, attempts: seq<Attempt>)
    requires current in pool
    requires 1 <= remaining <= |attempts|
    requires !Retryable(attempts[0].outcome) || remaining == 1
    ensures var h := Failover(st, pool, fields, key, current, remaining, attempts);
            h.calls == [Request(fields, current.id, key)] && Concluded(h, attempts[0].outcome, current.id, 1, remaining)
  {
  }

  /** The loop's trace when its first attempt is its last. */
  lemma StopTrace(st: Stats, pool: seq<ModelInfo>, fields: map<string, Json>, key: string,
                  current: ModelInfo, remaining: nat, attempts: seq<Attempt>)
    requires current in pool
    requires 1 <= remaining <= |attempts|
    requires !Retryable(attempts[0].outcome) || remaining == 1
    ensures FailoverTrace(Failover(st, pool, fields, key, current, remaining, attempts), pool, fields, key, current.id, remaining, attempts)
  {
    FailoverStops(st, pool, fields, key, current, remaining, attempts);
    SingleCallTrace(Failover(st, pool, fields, key, current, remaining, attempts), pool, fields, key, current.id, remaining, attempts);
  }

  /** The loop's trace when its first attempt is retried, given the trace of the rest of the loop. */
  lemma RetryTrace(st: Stats, pool: seq<ModelInfo>, fields: map<string, Json>, key: string,
                   current: ModelInfo, remaining: nat, attempts: seq<Attempt>, sel: Selection)
    requires current in pool
    requires 1 < remaining <= |attempts|
    requires Retryable(attempts[0].outcome)
    requires sel == GetBestModel(RecordError(st, current.id, attempts[0].clock), pool, attempts[0].clock)
    requires sel.choice.Some? && sel.choice.value in pool
    requires FailoverTrace(Failover(sel.stats, pool, fields, key, sel.choice.value, remaining - 1, attempts[1..]),
                           pool, fields, key, sel.choice.value.id, remaining - 1, attempts[1..])
    ensures FailoverTrace(Failover(st, pool, fields, key, current, remaining, attempts), pool, fields, key, current.id, remaining, attempts)
  {
    FailoverRetryStep(st, pool, fields, key, current, remaining, attempts, sel);
    var rest := Failover(sel.stats, pool, fields, key, sel.choice.value, remaining - 1, attempts[1..]);
    RetryExtendsTrace(Failover(st, pool, fields, key, current, remaining, attempts), rest, Request(fields, current.id, key),
                      pool, fields, key, current.id, sel.choice.value.id, remaining, attempts);
  }

  /** The retried case of `FailoverYieldsTrace`: the trace of the rest of the loop, from the model
      selected after the failure, extends to the whole loop. */
  lemma {:induction false} RetryBranch(st: Stats, pool: seq<ModelInfo>, fields: map<string, Json>, key: string,
                                       current: ModelInfo, remaining: nat, attempts: seq<Attempt>)
    requires current in pool
    requires 1 < remaining <= |attempts|
    requires Retryable(attempts[0].outcome)
    ensures FailoverTrace(Failover(st, pool, fields, key, current, remaining, attempts), pool, fields, key, current.id, remaining, attempts)
    decreases remaining, 0
  {
    var sel := GetBestModel(RecordError(st, current.id, attempts[0].clock), pool, attempts[0].clock);
    assert sel.choice.Some? && sel.choice.value in pool by {
      assert current in pool;
    }
    FailoverYieldsTrace(sel.stats, pool, fields, key, sel.choice.value, remaining - 1, attempts[1..]);
    RetryTrace(st, pool, fields, key, current, remaining, attempts, sel);
  }

  /** Every run of the failover loop is described by `FailoverTrace`. */
  lemma {:induction false} FailoverYieldsTrace(st: Stats, pool: seq<ModelInfo>, fields: map<string, Json>, key: string,
                                               current: ModelInfo, remaining: nat, attempts: seq<Attempt>)
    requires current in pool
    requires 1 <= remaining <= |attempts|
    ensures FailoverTrace(Failover(st, pool, fields, key, current, remaining, attempts), pool, fields, key, current.id, remaining, attempts)
    decreases remaining, 1
  {
    if Retryable(attempts[0].outcome) && remaining > 1 {
      RetryBranch(st, pool, fields, key, current, remaining, attempts);
    } else {
      StopTrace(st, pool, fields, key, current, remaining, attempts);
    }
  }

  /** The last attempt failing at the transport level ends the loop with 502 and one error recorded. */
  lemma FailoverLastTransportFailure(st: Stats, pool: seq<ModelInfo>, fields: map<string, Json>, key: string,
                                     current: ModelInfo, attempts: seq<Attempt>)
    requires current in pool
    requires 1 <= |attempts| && attempts[0].outcome.TransportFailure?
    ensures Failover(st, pool, fields, key, current, 1, attempts)
            == Handled(ErrorPage(502, "Bad Gateway: " + attempts[0].outcome.reason),
                       RecordError(st, current.id, attempts[0].clock),
                       [Request(fields, current.id, key)], [ErrorRecorded(current.id)])
  {
  }

  /** A 200 ends the loop, relaying the filtered headers and recording one success. */
  lemma FailoverSucceeds(st: Stats, pool: seq<ModelInfo>, fields: map<string, Json>, key: string,
                         current: ModelInfo, remaining: nat, attempts: seq<Attempt>)
    requires current in pool
    requires 1 <= remaining <= |attempts|
    requires attempts[0].outcome.Response? && attempts[0].outcome.status == 200
    ensures Failover(st, pool, fields, key, current, remaining, attempts)
            == Handled(Relay(200, attempts[0].outcome.text, ForwardableHeaders(attempts[0].outcome.headers)),
                       RecordSuccess(st, current.id),
                       [Request(fields, current.id, key)], [SuccessRecorded(current.id)])
  {
    assert !RateLimited(200, attempts[0].outcome.text);
  }

  /** A retried attempt followed by a 200 from the model selected after it ends the loop after
      two calls, with the error and then the success recorded, whatever the attempts left. */
  lemma FailoverRetryThenSuccess(st: Stats, pool: seq<ModelInfo>, fields: map<string, Json>, key: string,
                                 current: ModelInfo, remaining: nat, attempts: seq<Attempt>, sel: Selection)
    requires current in pool
    requires 2 <= remaining <= |attempts|
    requires Retryable(attempts[0].outcome)
    requires sel == GetBestModel(RecordError(st, current.id, attempts[0].clock), pool, attempts[0].clock)
    requires attempts[1].outcome.Response? && attempts[1].outcome.status == 200
    ensures sel.choice.Some?
    ensures var h := Failover(st, pool, fields, key, current, remaining, attempts);
            && h.reply == Relay(200, attempts[1].outcome.text, ForwardableHeaders(attempts[1].outcome.headers))
            && h.stats == RecordSuccess(sel.stats, sel.choice.value.id)
            && h.calls == [Request(fields, current.id, key), Request(fields, sel.choice.value.id, key)]
            && h.events == [ErrorRecorded(current.id), SuccessRecorded(sel.choice.value.id)]
  {
    FailoverRetryStep(st, pool, fields, key, current, remaining, attempts, sel);
    var next := sel.choice.value;
    assert attempts[1..][0] == attempts[1];
    FailoverSucceeds(sel.stats, pool, fields, key, next, remaining - 1, attempts[1..]);
    AppendToSuccess(Failover(st, pool, fields, key, current, remaining, attempts),
                    Failover(sel.stats, pool, fields, key, next, remaining - 1, attempts[1..]),
                    Request(fields, current.id, key), ErrorRecorded(current.id));
  }

  /** One call and one event in front of a run that was a single success. */
  lemma AppendToSuccess(h: Handled, rest: Handled, call: UpstreamCall, e: StatEvent)
    requires |rest.calls| == 1 && |rest.events| == 1
    requires h == Handled(rest.reply, rest.stats, [call] + rest.calls, [e] + rest.events)
    ensures h.reply == rest.reply && h.stats == rest.stats
    ensures h.calls == [call, rest.calls[0]] && h.events == [e, rest.events[0]]
  {
  }

  /** `handle_chat_completion` for one POST to /v1/chat/completions at time `now`: parse the body
      (400), check the Authorization header (401), select a model (503 when there is none), then
      run the failover loop. A body that is JSON but not an object fails when its `model` is
      read, after the selection, with the catch-all 500 carrying Python's `AttributeError` text. */
  function HandleChatCompletion(st: Stats, pool: seq<ModelInfo>, body: RequestBody, authorization: Option<string>,
                                now: real, attempts: seq<Attempt>): (h: Handled)
    requires |attempts| >= AttemptBudget(pool)
    ensures h.stats.errorThreshold == st.errorThreshold
    ensures body.InvalidJson? ==>
              h.reply == ErrorPage(400, "Invalid JSON in request body") && h.calls == [] && h.events == [] && h.stats == st
    ensures !body.InvalidJson? && !StartsWith(authorization.GetOr(""), "Bearer ") ==>
              h.reply == ErrorPage(401, "Missing or invalid Authorization header")
              && h.calls == [] && h.events == [] && h.stats == st
    ensures !body.InvalidJson? && StartsWith(authorization.GetOr(""), "Bearer ") && |pool| == 0 ==>
              h.reply == ErrorPage(503, "No models available") && h.calls == [] && h.events == [] && h.stats.records == map[]
    ensures body.NotAnObject? && StartsWith(authorization.GetOr(""), "Bearer ") && |pool| > 0 ==>
              && h.reply == ErrorPage(500, "Internal error: '" + body.typeName + "' object has no attribute 'get'")
              && h.calls == [] && h.events == [] && h.stats == GetBestModel(st, pool, now).stats
    ensures body.JsonObject? && StartsWith(authorization.GetOr(""), "Bearer ") && |pool| > 0 ==>
              1 <= |h.calls| <= AttemptBudget(pool)
  {
    if body.InvalidJson? then
      Handled(ErrorPage(400, "Invalid JSON in request body"), st, [], [])
    else
      var header := authorization.GetOr("");
      if !StartsWith(header, "Bearer ") then
        Handled(ErrorPage(401, "Missing or invalid Authorization header"), st, [], [])
      else
        var key := ForwardedKey(header);
        var sel := GetBestModel(st, pool, now);
        if sel.choice.None? then
          Handled(ErrorPage(503, "No models available"), sel.stats, [], [])
        else if body.NotAnObject? then
          Handled(ErrorPage(500, "Internal error: '" + body.typeName + "' object has no attribute 'get'"), sel.stats, [], [])
        else
          Failover(sel.stats, pool, body.fields, key, sel.choice.value, AttemptBudget(pool), attempts)
  }

  /** A well-formed, authorized request on a non-empty pool is the failover loop, started on the
      model `get_best_model` selects at arrival, with the forwarded credential. */
  lemma HandleRunsFailover(st: Stats, pool: seq<ModelInfo>, fields: map<string, Json>, authorization: string,
                           now: real, attempts: seq<Attempt>, sel: Selection)
    requires |pool| > 0 && |attempts| >= AttemptBudget(pool)
    requires StartsWith(authorization, "Bearer ")
    requires sel == GetBestModel(st, pool, now)
    ensures sel.choice.Some? && sel.choice.value in pool
    ensures HandleChatCompletion(st, pool, JsonObject(fields), Some(authorization), now, attempts)
            == Failover(sel.stats, pool, fields, ForwardedKey(authorization), sel.choice.value, AttemptBudget(pool), attempts)
  {
    SelectionOnPool(st, pool, now, sel);
    assert Some(authorization).GetOr("") == authorization;
  }

  /** On a non-empty pool, `get_best_model` returns a model of the pool. */
  lemma SelectionOnPool(st: Stats, pool: seq<ModelInfo>, now: real, sel: Selection)
    requires |pool| > 0
    requires sel == GetBestModel(st, pool, now)
    ensures sel.choice.Some? && sel.choice.value in pool
  {
    assert pool[0] in pool;
  }

  /** Every well-formed, authorized request on a non-empty pool starts the failover trace on
      the model `get_best_model` selects, and keeps to its budget, its request shape and its
      stopping rule. */
  lemma HandleYieldsTrace(st: Stats, pool: seq<ModelInfo>, fields: map<string, Json>, authorization: string,
                          now: real, attempts: seq<Attempt>, sel: Selection)
    requires |pool| > 0 && |attempts| >= AttemptBudget(pool)
    requires StartsWith(authorization, "Bearer ")
    requires sel == GetBestModel(st, pool, now)
    ensures sel.choice.Some?
    ensures FailoverTrace(HandleChatCompletion(st, pool, JsonObject(fields), Some(authorization), now, attempts),
                          pool, fields, ForwardedKey(authorization), sel.choice.value.id, AttemptBudget(pool), attempts)
  {
    HandleRunsFailover(st, pool, fields, authorization, now, attempts, sel);
    FailoverYieldsTrace(sel.stats, pool, fields, ForwardedKey(authorization), sel.choice.value, AttemptBudget(pool), attempts);
  }

  /** The tracker after a loop whose first attempt is its last: that attempt's record call, if any. */
  lemma StopTracker(st: Stats, pool: seq<ModelInfo>, fields: map<string, Json>, key: string,
                    current: ModelInfo, remaining: nat, attempts: seq<Attempt>)
    requires current in pool
    requires 1 <= remaining <= |attempts|
    requires !Retryable(attempts[0].outcome) || remaining == 1
    ensures TrackerTrace(Failover(st, pool, fields, key, current, remaining, attempts), st, pool, attempts)
  {
    var h := Failover(st, pool, fields, key, current, remaining, attempts);
    FailoverStops(st, pool, fields, key, current, remaining, attempts);
    SingleCallReplay(h, st, Reselector(pool), attempts);
  }

  /** The tracker after a loop whose first attempt is retried, given the rest of the loop's. */
  lemma RetryTracker(st: Stats, pool: seq<ModelInfo>, fields: map<string, Json>, key: string,
                     current: ModelInfo, remaining: nat, attempts: seq<Attempt>, sel: Selection)
    requires current in pool
    requires 1 < remaining <= |attempts|
    requires Retryable(attempts[0].outcome)
    requires sel == GetBestModel(RecordError(st, current.id, attempts[0].clock), pool, attempts[0].clock)
    requires sel.choice.Some? && sel.choice.value in pool
    requires TrackerTrace(Failover(sel.stats, pool, fields, key, sel.choice.value, remaining - 1, attempts[1..]),
                          sel.stats, pool, attempts[1..])
    ensures TrackerTrace(Failover(st, pool, fields, key, current, remaining, attempts), st, pool, attempts)
  {
    FailoverRetryStep(st, pool, fields, key, current, remaining, attempts, sel);
    var rest := Failover(sel.stats, pool, fields, key, sel.choice.value, remaining - 1, attempts[1..]);
    assert Reselector(pool)(st, ErrorRecorded(current.id), attempts[0].clock) == sel;
    RetryExtendsReplay(Failover(st, pool, fields, key, current, remaining, attempts), rest, st, Reselector(pool),
                      Request(fields, current.id, key), current.id, attempts);
  }

  /** The retried case of `FailoverTracksStats`. */
  lemma {:induction false} RetryTrackerBranch(st: Stats, pool: seq<ModelInfo>, fields: map<string, Json>, key: string,
                                              current: ModelInfo, remaining: nat, attempts: seq<Attempt>)
    requires current in pool
    requires 1 < remaining <= |attempts|
    requires Retryable(attempts[0].outcome)
    ensures TrackerTrace(Failover(st, pool, fields, key, current, remaining, attempts), st, pool, attempts)
    decreases remaining, 0
  {
    var sel := GetBestModel(RecordError(st, current.id, attempts[0].clock), pool, attempts[0].clock);
    assert sel.choice.Some? && sel.choice.value in pool by {
      assert current in pool;
    }
    FailoverTracksStats(sel.stats, pool, fields, key, sel.choice.value, remaining - 1, attempts[1..]);
    RetryTracker(st, pool, fields, key, current, remaining, attempts, sel);
  }

  /** Every run of the failover loop moves the tracker as its replay says: each retry's error is
      recorded at that attempt's clock and followed by a `get_best_model` at the same clock whose
      choice is the next call's model, and the tracker left behind is the last of these, with the
      final attempt's error or success recorded. */
  lemma {:induction false} FailoverTracksStats(st: Stats, pool: seq<ModelInfo>, fields: map<string, Json>, key: string,
                                               current: ModelInfo, remaining: nat, attempts: seq<Attempt>)
    requires current in pool
    requires 1 <= remaining <= |attempts|
    ensures TrackerTrace(Failover(st, pool, fields, key, current, remaining, attempts), st, pool, attempts)
    decreases remaining, 1
  {
    if Retryable(attempts[0].outcome) && remaining > 1 {
      RetryTrackerBranch(st, pool, fields, key, current, remaining, attempts);
    } else {
      StopTracker(st, pool, fields, key, current, remaining, attempts);
    }
  }

  /** A well-formed, authorized request on a non-empty pool moves the tracker as the replay of its
      failover loop says, starting from the tracker the arrival's `get_best_model` left. */
  lemma HandleTracksStats(st: Stats, pool: seq<ModelInfo>, fields: map<string, Json>, authorization: string,
                          now: real, attempts: seq<Attempt>, sel: Selection)
    requires |pool| > 0 && |attempts| >= AttemptBudget(pool)
    requires StartsWith(authorization, "Bearer ")
    requires sel == GetBestModel(st, pool, now)
    ensures sel.choice.Some?
    ensures TrackerTrace(HandleChatCompletion(st, pool, JsonObject(fields), Some(authorization), now, attempts),
                         sel.stats, pool, attempts)
  {
    HandleRunsFailover(st, pool, fields, authorization, now, attempts, sel);
    FailoverTracksStats(sel.stats, pool, fields, ForwardedKey(authorization), sel.choice.value, AttemptBudget(pool), attempts);
  }
}
