/**
 * Concrete runs of the proxy core: a rate limit on one model followed by a success on the
 * next, the lock-out and cool-down that follow it, a timeout on a one-model pool, and the
 * breadth of the rate-limit test.
 */
module Scenarios {
  import opened Basics
  import opened Text
  import opened Catalog
  import opened ModelStats
  import opened Upstream
  import opened ChatCompletion

  const ModelA: ModelInfo := ModelInfo("a", None, None, map[])
  const ModelB: ModelInfo := ModelInfo("b", None, None, map[])
  const Pool: seq<ModelInfo> := [ModelA, ModelB]
  const Fields: map<string, Json> := map["model" := JStr("gpt-4"), "messages" := JRaw("[]")]

  /** The tracker after "a" was rate limited at time 10. */
  const AfterLimit: Stats := Stats(map["a" := Record(1, 0, Some(10.0))], 1)

  /** The tracker after "b" then succeeded. */
  const AfterSuccess: Stats := Stats(map["a" := Record(1, 0, Some(10.0)), "b" := Record(0, 1, None)], 1)

  const LimitThenOk: seq<Attempt> := [Attempt(Response(429, "slow down", []), 10.0), Attempt(Response(200, "ok", []), 11.0)]

  /** On a fresh tracker the first model of the pool is chosen. */
  lemma FreshTrackerPicksFirst()
    ensures GetBestModel(NewStats(1), Pool, 5.0) == Selection(Some(ModelA), NewStats(1))
  {
    var st := NewStats(1);
    var sel := GetBestModel(st, Pool, 5.0);
    assert ModelA in Pool;
    assert !NoneAvailable(st, Pool, 5.0);
    AvailableAmongAllUnseen(st, Pool, 5.0);
    var i :| FirstBestAt(sel.stats, Pool, i) && Pool[i] == sel.choice.value;
    assert i == 0;
    assert Forgive(st, IdsOf(Pool), 5.0) == st;
  }

  /** Right after its error, "a" is locked out (threshold 1) and "b" is chosen. */
  lemma LockedOutModelIsSkipped(now: real)
    requires now - 10.0 <= CooldownSeconds
    ensures GetBestModel(AfterLimit, Pool, now) == Selection(Some(ModelB), AfterLimit)
  {
    var sel := GetBestModel(AfterLimit, Pool, now);
    assert !Available(AfterLimit, "a", now);
    assert Available(AfterLimit, "b", now);
    assert ModelB in Pool;
    var avail := AvailableAmong(AfterLimit, Pool, now);
    assert Pool[1..] == [ModelB];
    assert AvailableAmong(AfterLimit, [ModelB][1..], now) == [];
    assert AvailableAmong(AfterLimit, [ModelB], now) == [ModelB];
    assert avail == [ModelB];
    assert Forgive(AfterLimit, IdsOf(Pool), now) == AfterLimit;
  }

  /** The scenario's first attempt: "a" answers 429 at time 10, which records its error. */
  lemma FirstAttemptLimited()
    ensures Retryable(LimitThenOk[0].outcome) && LimitThenOk[0].clock == 10.0
    ensures RecordError(NewStats(1), "a", 10.0) == AfterLimit
  {
    var r := RecordError(NewStats(1), "a", 10.0);
    assert r.records.Keys == {"a"};
    assert r.records == AfterLimit.records;
  }

  /** The scenario's second attempt: "b" answers 200, and its success is recorded. */
  lemma SecondAttemptSucceeds()
    ensures LimitThenOk[1].outcome == Response(200, "ok", [])
    ensures RecordSuccess(AfterLimit, "b") == AfterSuccess
  {
    var r := RecordSuccess(AfterLimit, "b");
    assert r.records.Keys == {"a", "b"};
    assert r.records == AfterSuccess.records;
  }

  /** The failover loop of the scenario: 429 from "a", then 200 from "b". */
  lemma LimitThenOkLoop()
    ensures Failover(NewStats(1), Pool, Fields, "sk-1", ModelA, 2, LimitThenOk)
         == Handled(Relay(200, "ok", []), AfterSuccess,
                    [Request(Fields, "a", "sk-1"), Request(Fields, "b", "sk-1")],
                    [ErrorRecorded("a"), SuccessRecorded("b")])
  {
    FirstAttemptLimited();
    LockedOutModelIsSkipped(10.0);
    SecondAttemptSucceeds();
    assert ModelA in Pool;
    FailoverRetryThenSuccess(NewStats(1), Pool, Fields, "sk-1", ModelA, 2, LimitThenOk, Selection(Some(ModelB), AfterLimit));
    assert ForwardableHeaders([]) == [];
  }

  /** Pool [a, b], threshold 1: "a" answers 429, the retry goes to "b", which answers 200. The
      client gets the 200 and the tracker holds one error for "a" and one success for "b". */
  lemma RateLimitThenSuccess()
    ensures var h := HandleChatCompletion(NewStats(1), Pool, JsonObject(Fields), Some("Bearer sk-1"), 5.0, LimitThenOk);
            && h.reply == Relay(200, "ok", [])
            && h.calls == [Request(Fields, "a", "sk-1"), Request(Fields, "b", "sk-1")]
            && h.events == [ErrorRecorded("a"), SuccessRecorded("b")]
            && h.stats == AfterSuccess
  {
    ScenarioEntersLoop();
    ScenarioKey();
    LimitThenOkLoop();
  }

  /** The scenario's request passes parsing, authentication and selection of "a", and runs the
      failover loop with a budget of two attempts. */
  lemma ScenarioEntersLoop()
    ensures HandleChatCompletion(NewStats(1), Pool, JsonObject(Fields), Some("Bearer sk-1"), 5.0, LimitThenOk)
         == Failover(NewStats(1), Pool, Fields, ForwardedKey("Bearer sk-1"), ModelA, 2, LimitThenOk)
  {
    FreshTrackerPicksFirst();
    assert StartsWith("Bearer sk-1", "Bearer ");
    HandleRunsFailover(NewStats(1), Pool, Fields, "Bearer sk-1", 5.0, LimitThenOk, Selection(Some(ModelA), NewStats(1)));
    assert AttemptBudget(Pool) == 2;
  }

  /** The key the scenario's Authorization header carries. */
  lemma ScenarioKey()
    ensures ForwardedKey("Bearer sk-1") == "sk-1"
  {
    FirstCharAbsent("sk-1", "Bearer ");
    ForwardedKeyOfBearer("sk-1");
    assert "Bearer " + "sk-1" == "Bearer sk-1";
  }

  /** While "a" is cooling down, the next request goes to "b". */
  lemma NextRequestAvoidsLockedOut(now: real)
    requires now - 10.0 <= CooldownSeconds
    ensures GetBestModel(AfterSuccess, Pool, now).choice == Some(ModelB)
  {
    var sel := GetBestModel(AfterSuccess, Pool, now);
    assert !Available(AfterSuccess, "a", now);
    assert Available(AfterSuccess, "b", now);
    assert ModelB in Pool;
    assert Pool[1..] == [ModelB];
    assert AvailableAmong(AfterSuccess, [ModelB][1..], now) == [];
    assert AvailableAmong(AfterSuccess, [ModelB], now) == [ModelB];
    assert AvailableAmong(AfterSuccess, Pool, now) == [ModelB];
  }

  /** After the cooldown both models of the pool are available again. */
  lemma BothAvailableAfterCooldown(now: real)
    requires now - 10.0 > CooldownSeconds
    ensures AvailableAmong(AfterSuccess, Pool, now) == Pool
  {
    assert Available(AfterSuccess, "a", now);
    assert Available(AfterSuccess, "b", now);
    assert Pool[1..] == [ModelB];
    assert AvailableAmong(AfterSuccess, [ModelB][1..], now) == [];
    assert AvailableAmong(AfterSuccess, [ModelB], now) == [ModelB];
  }

  /** Forgiving "a" resets its one error, so its success rate is back to 1.0. */
  lemma ForgivenRateIsPerfect(now: real)
    requires now - 10.0 > CooldownSeconds
    ensures SuccessRate(Forgive(AfterSuccess, IdsOf(Pool), now), "a") == 1.0
  {
    var forgiven := Forgive(AfterSuccess, IdsOf(Pool), now);
    assert "a" in IdsOf(Pool) by { assert Pool[0].id == "a"; }
    assert forgiven.records["a"] == Record(0, 0, Some(10.0));
  }

  /** Once "a" has cooled down its error is forgiven, its rate is 1.0 again, and being first in
      the pool it wins over "b". */
  lemma CooledDownModelWins(now: real)
    requires now - 10.0 > CooldownSeconds
    ensures GetBestModel(AfterSuccess, Pool, now).choice == Some(ModelA)
  {
    var sel := GetBestModel(AfterSuccess, Pool, now);
    BothAvailableAfterCooldown(now);
    ForgivenRateIsPerfect(now);
    assert !NoneAvailable(AfterSuccess, Pool, now) by { assert Available(AfterSuccess, "a", now); }
    var i :| FirstBestAt(sel.stats, Pool, i) && Pool[i] == sel.choice.value;
    assert i == 0;
  }

  /** A fresh tracker serving a pool of one model selects it and is left as it was. */
  lemma OnlyModelSelected()
    ensures GetBestModel(NewStats(3), [ModelA], 5.0) == Selection(Some(ModelA), NewStats(3))
  {
    var st := NewStats(3);
    var sel := GetBestModel(st, [ModelA], 5.0);
    assert ModelA in [ModelA];
    assert AvailableAmong(st, [ModelA], 5.0) == [ModelA];
    assert sel.choice == Some(ModelA);
    assert Forgive(st, IdsOf([ModelA]), 5.0) == st;
  }

  /** The one attempt of the single-model scenario: a read timeout at time 65. */
  const TimeoutOnce: seq<Attempt> := [Attempt(TransportFailure("read timeout"), 65.0)]

  /** The single-model request runs the failover loop with a budget of one attempt. */
  lemma TimeoutEntersLoop()
    ensures HandleChatCompletion(NewStats(3), [ModelA], JsonObject(Fields), Some("Bearer sk-1"), 5.0, TimeoutOnce)
         == Failover(NewStats(3), [ModelA], Fields, ForwardedKey("Bearer sk-1"), ModelA, 1, TimeoutOnce)
  {
    OnlyModelSelected();
    assert StartsWith("Bearer sk-1", "Bearer ");
    HandleRunsFailover(NewStats(3), [ModelA], Fields, "Bearer sk-1", 5.0, TimeoutOnce, Selection(Some(ModelA), NewStats(3)));
    assert AttemptBudget([ModelA]) == 1;
  }

  /** The timeout's error, recorded on a fresh tracker. */
  lemma TimeoutRecorded()
    ensures RecordError(NewStats(3), "a", 65.0).records == map["a" := Record(1, 0, Some(65.0))]
  {
    var recorded := RecordError(NewStats(3), "a", 65.0);
    assert recorded.records.Keys == {"a"};
    assert recorded.records["a"] == Record(1, 0, Some(65.0));
  }

  /** Pool of one model whose only attempt times out: the client gets 502 and the tracker
      holds one error for it. */
  lemma TimeoutOnOnlyModel()
    ensures var h := HandleChatCompletion(NewStats(3), [ModelA], JsonObject(Fields), Some("Bearer sk-1"), 5.0, TimeoutOnce);
            && h.reply == ErrorPage(502, "Bad Gateway: " + "read timeout")
            && h.events == [ErrorRecorded("a")]
            && h.stats.records == map["a" := Record(1, 0, Some(65.0))]
  {
    TimeoutEntersLoop();
    assert ModelA in [ModelA];
    FailoverLastTransportFailure(NewStats(3), [ModelA], Fields, ForwardedKey("Bearer sk-1"), ModelA, TimeoutOnce);
    TimeoutRecorded();
  }

  /** The rate-limit test looks for "rate" anywhere in the body, so a server error about failing
      to "generate" is treated as a rate limit and retried against another model. */
  lemma GenerateCountsAsRateLimit()
    ensures RateLimited(500, "Failed to generate")
  {
    var body := Lower("Failed to generate");
    assert body[14] == 'r' && body[15] == 'a' && body[16] == 't' && body[17] == 'e';
    assert body[14..18] == "rate";
    assert OccursAt(body, "rate", 14);
    ContainsIffOccurs(body, "rate");
  }

  /** A validation error whose body does not mention "rate" is not a rate limit: it is relayed
      as it is, without a retry. */
  lemma ValidationErrorIsNotRateLimit()
    ensures !RateLimited(400, "Invalid model")
  {
    var body := Lower("Invalid model");
    assert forall j :: 0 <= j < |body| ==> body[j] != 'r';
    FirstCharAbsent(body, "rate");
  }
}
