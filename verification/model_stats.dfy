/**
 * `ModelStats` (openrouterfreescanner/proxy.py): the per-model health tracker the proxy
 * consults to choose an upstream model. The clock is the explicit argument `now`, in seconds.
 */
module ModelStats {
  import opened Basics
  import opened Catalog

  /** A model whose last error is more than this many seconds old has its errors forgiven. */
  const CooldownSeconds: real := 300.0

  /** One model's counters; `lastError` is the time of its latest recorded error. */
  datatype Record = Record(errors: nat, successes: nat, lastError: Option<real>)

  /** The tracker: a record per model id seen so far, and the error threshold. */
  datatype Stats = Stats(records: map<string, Record>, errorThreshold: int)

  /** The record `record_error` and `record_success` create for a model seen for the first time. */
  const Fresh: Record := Record(0, 0, None)

  /** The tracker of a server that has just started. */
  function NewStats(errorThreshold: int): (st: Stats)
    ensures st.records == map[] && st.errorThreshold == errorThreshold
  {
    Stats(map[], errorThreshold)
  }

  /** A model's record, or the zeroed record it would be given. */
  function RecordOf(st: Stats, id: string): Record {
    if id in st.records then st.records[id] else Fresh
  }

  /** `record_error(model_id)` at time `now`. */
  function RecordError(st: Stats, id: string, now: real): (r: Stats)
    ensures r.errorThreshold == st.errorThreshold
    ensures r.records.Keys == st.records.Keys + {id}
    ensures r.records[id] == Record(RecordOf(st, id).errors + 1, RecordOf(st, id).successes, Some(now))
    ensures forall k :: k in st.records && k != id ==> r.records[k] == st.records[k]
  {
    var prior := RecordOf(st, id);
    st.(records := st.records[id := prior.(errors := prior.errors + 1, lastError := Some(now))])
  }

  /** `record_success(model_id)`. */
  function RecordSuccess(st: Stats, id: string): (r: Stats)
    ensures r.errorThreshold == st.errorThreshold
    ensures r.records.Keys == st.records.Keys + {id}
    ensures r.records[id] == Record(RecordOf(st, id).errors, RecordOf(st, id).successes + 1, RecordOf(st, id).lastError)
    ensures forall k :: k in st.records && k != id ==> r.records[k] == st.records[k]
  {
    var prior := RecordOf(st, id);
    st.(records := st.records[id := prior.(successes := prior.successes + 1)])
  }

  /** The last error is set (Python treats a time of 0.0 as unset) and more than
      `CooldownSeconds` old. */
  predicate CooledDown(r: Record, now: real) {
    r.lastError.Some? && r.lastError.value != 0.0 && now - r.lastError.value > CooldownSeconds
  }

  /** Whether a model may be chosen: never seen, cooled down, or under the threshold. */
  predicate Available(st: Stats, id: string, now: real) {
    id !in st.records || CooledDown(st.records[id], now) || st.records[id].errors < st.errorThreshold
  }

  /** The tracker after every cooled-down record among `ids` has had its errors reset to 0. */
  function Forgive(st: Stats, ids: set<string>, now: real): (r: Stats)
    ensures r.errorThreshold == st.errorThreshold
    ensures r.records.Keys == st.records.Keys
    ensures forall k :: k in st.records ==> r.records[k] == if k in ids && CooledDown(st.records[k], now) then st.records[k].(errors := 0) else st.records[k]
  {
    st.(records := map k | k in st.records :: if k in ids && CooledDown(st.records[k], now) then st.records[k].(errors := 0) else st.records[k])
  }

  /** The answer of `is_model_available` and the tracker it leaves behind. */
  datatype Probe = Probe(available: bool, stats: Stats)

  /** `is_model_available(model_id)` at time `now`: a query that forgives a cooled-down model's errors. */
  function IsModelAvailable(st: Stats, id: string, now: real): (p: Probe)
    ensures id !in st.records ==> p.available && p.stats == st
    ensures id in st.records && CooledDown(st.records[id], now) ==>
              p.available && p.stats == st.(records := st.records[id := st.records[id].(errors := 0)])
    ensures id in st.records && !CooledDown(st.records[id], now) ==>
              p.available == (st.records[id].errors < st.errorThreshold) && p.stats == st
    ensures p.available == Available(st, id, now)
    ensures p.stats == Forgive(st, {id}, now)
  {
    if id !in st.records then
      Probe(true, st)
    else if CooledDown(st.records[id], now) then
      Probe(true, st.(records := st.records[id := st.records[id].(errors := 0)]))
    else
      Probe(st.records[id].errors < st.errorThreshold, st)
  }

  /** Forgiving errors never changes which models are available. */
  lemma ForgiveKeepsAvailability(st: Stats, ids: set<string>, now: real, id: string)
    ensures Available(Forgive(st, ids, now), id, now) == Available(st, id, now)
  {
  }

  /** Forgiving twice is forgiving once, over both sets of ids. */
  lemma ForgiveTwice(st: Stats, a: set<string>, b: set<string>, now: real)
    ensures Forgive(Forgive(st, a, now), b, now) == Forgive(st, a + b, now)
  {
    var once := Forgive(st, a, now);
    assert forall k :: k in st.records ==> CooledDown(once.records[k], now) == CooledDown(st.records[k], now);
  }

  /** The ids of a list of models. */
  function IdsOf(models: seq<ModelInfo>): (ids: set<string>)
    ensures forall m :: m in models ==> m.id in ids
    ensures forall id :: id in ids ==> exists m :: m in models && m.id == id
  {
    set m | m in models :: m.id
  }

  /** The models of `models` available at `now`, in list order. */
  function AvailableAmong(st: Stats, models: seq<ModelInfo>, now: real): (r: seq<ModelInfo>)
    ensures IsSubsequence(r, models)
    ensures forall m :: m in r <==> m in models && Available(st, m.id, now)
    decreases |models|
  {
    if |models| == 0 then []
    else
      var rest := AvailableAmong(st, models[1..], now);
      assert models == [models[0]] + models[1..];
      if Available(st, models[0].id, now) then [models[0]] + rest else rest
  }

  /** Which models are available depends only on availability, which forgiving preserves. */
  lemma {:induction false} AvailableAmongForgiven(st: Stats, ids: set<string>, models: seq<ModelInfo>, now: real)
    ensures AvailableAmong(Forgive(st, ids, now), models, now) == AvailableAmong(st, models, now)
    decreases |models|
  {
    if |models| > 0 {
      AvailableAmongForgiven(st, ids, models[1..], now);
      ForgiveKeepsAvailability(st, ids, now, models[0].id);
    }
  }

  /** The result of the list comprehension `[m for m in models if self.is_model_available(m['id'])]`. */
  datatype Scan = Scan(available: seq<ModelInfo>, stats: Stats)

  /** The ids of a non-empty list: its head's id and the ids of its tail. */
  lemma IdsOfCons(models: seq<ModelInfo>)
    requires |models| > 0
    ensures IdsOf(models) == {models[0].id} + IdsOf(models[1..])
  {
    assert models == [models[0]] + models[1..];
  }

  /** One step of the comprehension: probing the head, then scanning the tail from the tracker
      the probe leaves, scans the whole list. */
  lemma ProbeAllStep(st: Stats, models: seq<ModelInfo>, now: real, p: Probe, rest: Scan)
    requires |models| > 0
    requires p == IsModelAvailable(st, models[0].id, now)
    requires rest.available == AvailableAmong(p.stats, models[1..], now)
    requires rest.stats == Forgive(p.stats, IdsOf(models[1..]), now)
    ensures (if p.available then [models[0]] + rest.available else rest.available) == AvailableAmong(st, models, now)
    ensures rest.stats == Forgive(st, IdsOf(models), now)
  {
    AvailableAmongForgiven(st, {models[0].id}, models[1..], now);
    ForgiveTwice(st, {models[0].id}, IdsOf(models[1..]), now);
    IdsOfCons(models);
  }

  /** The comprehension, one `is_model_available` call per model, left to right. */
  function ProbeAll(st: Stats, models: seq<ModelInfo>, now: real): (r: Scan)
    ensures r.available == AvailableAmong(st, models, now)
    ensures r.stats == Forgive(st, IdsOf(models), now)
    decreases |models|
  {
    if |models| == 0 then
      assert Forgive(st, {}, now).records == st.records;
      Scan([], st)
    else
      var p := IsModelAvailable(st, models[0].id, now);
      var rest := ProbeAll(p.stats, models[1..], now);
      ProbeAllStep(st, models, now, p, rest);
      Scan(if p.available then [models[0]] + rest.available else rest.available, rest.stats)
  }

  /** The inner `success_rate` of `get_best_model`, as an exact rational:
      1.0 for an unseen model or one without outcomes, else successes / (successes + errors). */
  function SuccessRate(st: Stats, id: string): (r: real)
    ensures 0.0 <= r <= 1.0
    ensures id !in st.records ==> r == 1.0
    ensures id in st.records && st.records[id].successes + st.records[id].errors == 0 ==> r == 1.0
  {
    if id !in st.records then 1.0
    else
      var rec := st.records[id];
      var total := rec.successes + rec.errors;
      if total == 0 then 1.0
      else
        RatioAtMostOne(rec.successes, total);
        rec.successes as real / total as real
  }

  lemma RatioAtMostOne(part: nat, total: nat)
    requires 0 < total && part <= total
    ensures 0.0 <= part as real / total as real <= 1.0
  {
  }

  /** `s[i]` has the maximal success rate in `s`, and every earlier model a smaller one. */
  predicate FirstBestAt(st: Stats, s: seq<ModelInfo>, i: int) {
    && 0 <= i < |s|
    && (forall j :: 0 <= j < |s| ==> SuccessRate(st, s[j].id) <= SuccessRate(st, s[i].id))
    && (forall j :: 0 <= j < i ==> SuccessRate(st, s[j].id) < SuccessRate(st, s[i].id))
  }

  /** The index of the first model of maximal success rate: what Python's
      `max(models, key=success_rate)` returns. */
  function FirstMaximal(st: Stats, s: seq<ModelInfo>): (i: nat)
    requires |s| > 0
    ensures FirstBestAt(st, s, i)
    decreases |s|
  {
    if |s| == 1 then 0
    else
      var k := 1 + FirstMaximal(st, s[1..]);
      if SuccessRate(st, s[k].id) > SuccessRate(st, s[0].id) then k else 0
  }

  /** No model of the list is available at `now`. */
  predicate NoneAvailable(st: Stats, models: seq<ModelInfo>, now: real) {
    forall m :: m in models ==> !Available(st, m.id, now)
  }

  /** The model `get_best_model` returns, if any, and the tracker it leaves behind. */
  datatype Selection = Selection(choice: Option<ModelInfo>, stats: Stats)

  /** `get_best_model(models)` at time `now`. */
  function GetBestModel(st: Stats, models: seq<ModelInfo>, now: real): (r: Selection)
    ensures r.stats.errorThreshold == st.errorThreshold
    ensures NoneAvailable(st, models, now) ==>
              && r.stats.records == map[]
              && r.choice == (if |models| > 0 then Some(models[0]) else None)
    ensures !NoneAvailable(st, models, now) ==>
              && r.stats == Forgive(st, IdsOf(models), now)
              && r.choice.Some?
              && r.choice.value in models
              && Available(st, r.choice.value.id, now)
              && (forall m :: m in models && Available(st, m.id, now) ==>
                    SuccessRate(r.stats, m.id) <= SuccessRate(r.stats, r.choice.value.id))
              && exists i :: FirstBestAt(r.stats, AvailableAmong(st, models, now), i) && AvailableAmong(st, models, now)[i] == r.choice.value
  {
    var scan := ProbeAll(st, models, now);
    if |scan.available| == 0 then
      assert NoneAvailable(st, models, now);
      Selection(if |models| > 0 then Some(models[0]) else None, Stats(map[], st.errorThreshold))
    else
      var i := FirstMaximal(scan.stats, scan.available);
      assert scan.available[i] in scan.available;
      assert forall m :: m in models && Available(st, m.id, now) ==> m in scan.available;
      Selection(Some(scan.available[i]), scan.stats)
  }

  /** At a fixed clock, a second `get_best_model` returns the same model and changes nothing:
      the first call already forgave every cooled-down model, or emptied the tracker. */
  lemma GetBestModelIdempotent(st: Stats, models: seq<ModelInfo>, now: real)
    ensures var first := GetBestModel(st, models, now);
            GetBestModel(first.stats, models, now) == first
  {
    if NoneAvailable(st, models, now) {
      IdempotentAfterReset(st, models, now);
    } else {
      IdempotentAfterForgiving(st, models, now);
    }
  }

  /** The case where the first call emptied the tracker. */
  lemma IdempotentAfterReset(st: Stats, models: seq<ModelInfo>, now: real)
    requires NoneAvailable(st, models, now)
    ensures var first := GetBestModel(st, models, now);
            GetBestModel(first.stats, models, now) == first
  {
    var first := GetBestModel(st, models, now);
    var second := GetBestModel(first.stats, models, now);
    assert first.stats == Stats(map[], st.errorThreshold);
    if |models| > 0 {
      assert !NoneAvailable(first.stats, models, now) by {
        assert models[0] in models;
      }
      assert Forgive(first.stats, IdsOf(models), now) == first.stats;
      AvailableAmongAllUnseen(first.stats, models, now);
      var i :| FirstBestAt(second.stats, models, i) && models[i] == second.choice.value;
      assert i == 0;
    }
  }

  /** The case where the first call only forgave cooled-down models. */
  lemma IdempotentAfterForgiving(st: Stats, models: seq<ModelInfo>, now: real)
    requires !NoneAvailable(st, models, now)
    ensures var first := GetBestModel(st, models, now);
            GetBestModel(first.stats, models, now) == first
  {
    var first := GetBestModel(st, models, now);
    var ids := IdsOf(models);
    var scan1 := ProbeAll(st, models, now);
    var scan2 := ProbeAll(first.stats, models, now);
    ForgiveTwice(st, ids, ids, now);
    assert ids + ids == ids;
    AvailableAmongForgiven(st, ids, models, now);
    assert scan2.stats == scan1.stats;
    assert scan2.available == scan1.available;
    var m :| m in models && Available(st, m.id, now);
    assert m in scan1.available;
  }

  /** On an empty tracker every model is available. */
  lemma {:induction false} AvailableAmongAllUnseen(st: Stats, models: seq<ModelInfo>, now: real)
    requires st.records == map[]
    ensures AvailableAmong(st, models, now) == models
    decreases |models|
  {
    if |models| > 0 {
      AvailableAmongAllUnseen(st, models[1..], now);
      assert models == [models[0]] + models[1..];
    }
  }

  /** A model never seen before is available and rated 1.0, the top rate; so whenever the list
      holds one, `get_best_model` returns a model rated 1.0. */
  lemma UnseenModelRanksTop(st: Stats, models: seq<ModelInfo>, now: real, unseen: ModelInfo)
    requires unseen in models && unseen.id !in st.records
    ensures Available(st, unseen.id, now) && SuccessRate(st, unseen.id) == 1.0
    ensures var sel := GetBestModel(st, models, now);
            sel.choice.Some? && SuccessRate(sel.stats, sel.choice.value.id) == 1.0
  {
    var sel := GetBestModel(st, models, now);
    assert !NoneAvailable(st, models, now);
    assert unseen.id !in sel.stats.records;
  }

  /** `record_error` called once per clock value of `clocks`, in order. */
  function RecordErrors(st: Stats, id: string, clocks: seq<real>): (r: Stats)
    decreases |clocks|
  {
    if |clocks| == 0 then st else RecordErrors(RecordError(st, id, clocks[0]), id, clocks[1..])
  }

  /** Consecutive errors add up, and the last one's time is remembered. */
  lemma {:induction false} RecordErrorsCount(st: Stats, id: string, clocks: seq<real>)
    requires |clocks| > 0
    ensures var r := RecordErrors(st, id, clocks);
            && r.errorThreshold == st.errorThreshold
            && id in r.records
            && r.records[id].errors == RecordOf(st, id).errors + |clocks|
            && r.records[id].successes == RecordOf(st, id).successes
            && r.records[id].lastError == Some(clocks[|clocks| - 1])
    decreases |clocks|
  {
    if |clocks| > 1 {
      RecordErrorsCount(RecordError(st, id, clocks[0]), id, clocks[1..]);
    }
  }

  /** After `error_threshold` consecutive errors a model is unavailable until its cooldown
      has passed; once it has, the model is available again. */
  lemma ThresholdErrorsLockOut(st: Stats, id: string, clocks: seq<real>, now: real)
    requires |clocks| > 0 && |clocks| >= st.errorThreshold
    requires clocks[|clocks| - 1] != 0.0
    ensures now - clocks[|clocks| - 1] <= CooldownSeconds ==> !Available(RecordErrors(st, id, clocks), id, now)
    ensures now - clocks[|clocks| - 1] > CooldownSeconds ==> Available(RecordErrors(st, id, clocks), id, now)
  {
    RecordErrorsCount(st, id, clocks);
  }

  /** For nonnegative numerators and positive denominators, cross-multiplication decides the order of the fractions. */
  lemma FractionLe(a: nat, b: nat, c: nat, d: nat)
    requires b > 0 && d > 0 && a * d <= c * b
    ensures a as real / b as real <= c as real / d as real
  {
    var x, y := a as real / b as real, c as real / d as real;
    assert x * (b as real) == a as real;
    assert y * (d as real) == c as real;
    assert (a * d) as real == a as real * d as real;
    assert (c * b) as real == c as real * b as real;
    assert x * (b as real) * (d as real) <= y * (d as real) * (b as real);
  }

  /** An error never raises a model's success rate, and a success never lowers it. */
  lemma RecordingMovesRate(st: Stats, id: string, now: real)
    ensures SuccessRate(RecordError(st, id, now), id) <= SuccessRate(st, id)
    ensures SuccessRate(st, id) <= SuccessRate(RecordSuccess(st, id), id)
  {
    var prior := RecordOf(st, id);
    var s, e := prior.successes, prior.errors;
    if s + e > 0 {
      FractionLe(s, s + e + 1, s, s + e);
      FractionLe(s, s + e, s + 1, s + e + 1);
    } else {
      assert SuccessRate(RecordError(st, id, now), id) == 0.0;
    }
  }

  /** With a positive threshold, a success never makes any model unavailable. */
  lemma SuccessKeepsAvailable(st: Stats, id: string, other: string, now: real)
    requires st.errorThreshold > 0
    requires Available(st, other, now)
    ensures Available(RecordSuccess(st, id), other, now)
  {
  }

  /** With a threshold of 0 or less, a model never seen before is available, and its first
      success locks it out: the record it creates has no errors and no error time, so it is
      neither cooled down nor under the threshold. */
  lemma ZeroThresholdSuccessLocksOut(st: Stats, id: string, now: real)
    requires st.errorThreshold <= 0
    requires id !in st.records
    ensures Available(st, id, now)
    ensures !Available(RecordSuccess(st, id), id, now)
  {
  }
}
