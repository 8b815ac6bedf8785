/**
 * How one run of the failover loop of `ProxyHandler.handle_chat_completion`
 * (openrouterfreescanner/proxy.py) moves the shared `ModelStats` tracker: a replay of the run's
 * record calls, each retried attempt followed by the `get_best_model` that picks the next model.
 * The replay is stated for any reselection step `next`; `TrackerTrace` instantiates it with the
 * proxy's own step, `Reselector(pool)`.
 */
module Replay {
  import opened Basics
  import opened Catalog
  import opened ModelStats
  import opened Upstream

  /** One record call of the loop applied to the tracker, at the clock of the attempt it follows. */
  function Apply(t: Stats, e: StatEvent, clock: real): (r: Stats)
    ensures r.errorThreshold == t.errorThreshold
    ensures r.records.Keys == t.records.Keys + {e.id}
    ensures e.ErrorRecorded? ==> r.records[e.id].errors == RecordOf(t, e.id).errors + 1
    ensures e.SuccessRecorded? ==> r.records[e.id].successes == RecordOf(t, e.id).successes + 1
  {
    match e
    case ErrorRecorded(id) => RecordError(t, id, clock)
    case SuccessRecorded(id) => RecordSuccess(t, id)
  }

  /** A reselection step: the tracker and the record call of a retried attempt, and the attempt's
      clock, to the model picked next and the tracker left behind. */
  type Step = (Stats, StatEvent, real) -> Selection

  /** The proxy's step: `get_best_model` on the tracker after the attempt's record call, at the
      attempt's clock. */
  function Reselector(pool: seq<ModelInfo>): Step {
    (t: Stats, e: StatEvent, clock: real) => GetBestModel(Apply(t, e, clock), pool, clock)
  }

  /** The tracker in front of attempt `i` of a run that started on `st`: the first `i` record
      calls replayed one by one, each followed by its reselection. */
  function TrackerBefore(st: Stats, next: Step, events: seq<StatEvent>, attempts: seq<Attempt>, i: nat): Stats
    requires i <= |events| && i <= |attempts|
    decreases i
  {
    if i == 0 then st
    else TrackerBefore(next(st, events[0], attempts[0].clock).stats, next, events[1..], attempts[1..], i - 1)
  }

  /** The model the reselection after attempt `i` of the replay picks. */
  function ChoiceAfter(st: Stats, next: Step, events: seq<StatEvent>, attempts: seq<Attempt>, i: nat): Option<ModelInfo>
    requires i < |events| && i < |attempts|
    decreases i
  {
    if i == 0 then next(st, events[0], attempts[0].clock).choice
    else ChoiceAfter(next(st, events[0], attempts[0].clock).stats, next, events[1..], attempts[1..], i - 1)
  }

  /** The choice after attempt `i` is the reselection on the tracker in front of attempt `i`,
      after that attempt's record call. */
  lemma {:induction false} ChoiceAfterIsReselect(st: Stats, next: Step, events: seq<StatEvent>, attempts: seq<Attempt>, i: nat)
    requires i < |events| && i < |attempts|
    ensures ChoiceAfter(st, next, events, attempts, i)
            == next(TrackerBefore(st, next, events, attempts, i), events[i], attempts[i].clock).choice
    decreases i
  {
    if i > 0 {
      ChoiceAfterIsReselect(next(st, events[0], attempts[0].clock).stats, next, events[1..], attempts[1..], i - 1);
      assert events[1..][i - 1] == events[i];
      assert attempts[1..][i - 1] == attempts[i];
    }
  }

  /** How one run of the loop, started on tracker `st`, moves the tracker under step `next`:
      replaying its record calls, every retried attempt is followed by a reselection whose choice
      is the model of the next call, and the tracker the run leaves behind is the replay of every
      record call, the last attempt's included. */
  predicate TraceUnder(h: Handled, st: Stats, next: Step, attempts: seq<Attempt>) {
    var n := |h.calls|;
    && 1 <= n <= |attempts|
    && n - 1 <= |h.events| <= n
    && (forall i :: 0 <= i < n - 1 ==>
          && ChoiceAfter(st, next, h.events, attempts, i).Some?
          && ChoiceAfter(st, next, h.events, attempts, i).value.id == h.calls[i + 1].model)
    && h.stats == if |h.events| == n
                  then Apply(TrackerBefore(st, next, h.events, attempts, n - 1), h.events[n - 1], attempts[n - 1].clock)
                  else TrackerBefore(st, next, h.events, attempts, n - 1)
  }

  /** The replay with the proxy's own reselection step. */
  predicate TrackerTrace(h: Handled, st: Stats, pool: seq<ModelInfo>, attempts: seq<Attempt>) {
    TraceUnder(h, st, Reselector(pool), attempts)
  }

  /** Replaying one more record call in front is one reselection more at the start. */
  lemma TrackerBeforeShift(st: Stats, next: Step, e: StatEvent, events: seq<StatEvent>, attempts: seq<Attempt>, i: nat)
    requires i <= |events| && i + 1 <= |attempts|
    ensures TrackerBefore(st, next, [e] + events, attempts, i + 1)
            == TrackerBefore(next(st, e, attempts[0].clock).stats, next, events, attempts[1..], i)
  {
    assert ([e] + events)[0] == e;
    assert ([e] + events)[1..] == events;
  }

  /** The same for the choice after an attempt. */
  lemma ChoiceAfterShift(st: Stats, next: Step, e: StatEvent, events: seq<StatEvent>, attempts: seq<Attempt>, i: nat)
    requires i < |events| && i + 2 <= |attempts|
    ensures ChoiceAfter(st, next, [e] + events, attempts, i + 1)
            == ChoiceAfter(next(st, e, attempts[0].clock).stats, next, events, attempts[1..], i)
  {
    assert ([e] + events)[0] == e;
    assert ([e] + events)[1..] == events;
  }

  /** A retried attempt whose reselection chose the model of the rest of the loop, followed by the
      rest's trace, is a trace of the whole loop. */
  lemma RetryExtendsReplay(h: Handled, rest: Handled, st: Stats, next: Step, call: UpstreamCall,
                          id: string, attempts: seq<Attempt>)
    requires |attempts| >= 1
    requires TraceUnder(rest, next(st, ErrorRecorded(id), attempts[0].clock).stats, next, attempts[1..])
    requires next(st, ErrorRecorded(id), attempts[0].clock).choice.Some?
    requires next(st, ErrorRecorded(id), attempts[0].clock).choice.value.id == rest.calls[0].model
    requires h.stats == rest.stats && h.calls == [call] + rest.calls && h.events == [ErrorRecorded(id)] + rest.events
    ensures TraceUnder(h, st, next, attempts)
  {
    var n := |h.calls|;
    forall i | 0 <= i < n - 1
      ensures && ChoiceAfter(st, next, h.events, attempts, i).Some?
              && ChoiceAfter(st, next, h.events, attempts, i).value.id == h.calls[i + 1].model
    {
      if i == 0 {
        assert h.events[0] == ErrorRecorded(id);
        assert h.calls[1] == rest.calls[0];
      } else {
        ChoiceAfterShift(st, next, ErrorRecorded(id), rest.events, attempts, i - 1);
        assert h.calls[i + 1] == rest.calls[i];
      }
    }
    TrackerBeforeShift(st, next, ErrorRecorded(id), rest.events, attempts, n - 2);
    assert attempts[n - 1] == attempts[1..][n - 2];
    if |h.events| == n {
      assert h.events[n - 1] == rest.events[n - 2];
    }
  }

  /** A run with a single attempt leaves the tracker that attempt's record call produced. */
  lemma SingleCallReplay(h: Handled, st: Stats, next: Step, attempts: seq<Attempt>)
    requires 1 <= |attempts| && |h.calls| == 1 && |h.events| <= 1
    requires h.stats == if |h.events| == 1 then Apply(st, h.events[0], attempts[0].clock) else st
    ensures TraceUnder(h, st, next, attempts)
  {
  }
}
