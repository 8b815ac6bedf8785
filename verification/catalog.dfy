/**
 * Catalog entries and `filter_models` (openrouterfreescanner/main.py): keeping the
 * models that match an optional name, minimum context length and provider.
 */
module Catalog {
  import opened Basics
  import opened Text

  /** A field value of a catalog entry, as far as comparing it is concerned: a number (an
      integer, a float other than NaN, or a boolean, which Python orders as 0 and 1 among
      them), a string, or anything else (a dict, a list, `None`). */
  datatype Value = Num(n: real) | Str(s: string) | Unordered

  /** One model descriptor as returned by the catalog: its id, its optional
      `name` and `context_length`, and every other field. */
  datatype ModelInfo = ModelInfo(id: string, name: Option<string>, contextLength: Option<int>, extra: map<string, Value>)

  /** `model.get(key)`: the field's value, or `None` when the descriptor lacks it. */
  function Field(m: ModelInfo, key: string): Option<Value> {
    if key == "id" then Some(Str(m.id))
    else if key == "name" then (if m.name.Some? then Some(Str(m.name.value)) else None)
    else if key == "context_length" then (if m.contextLength.Some? then Some(Num(m.contextLength.value as real)) else None)
    else if key in m.extra then Some(m.extra[key])
    else None
  }

  /** `id.split("/")[0]`: the id up to, not including, its first slash. */
  function ProviderOf(id: string): (r: string)
    ensures |r| <= |id| && r == id[..|r|]
    ensures '/' !in r
    ensures |r| < |id| ==> id[|r|] == '/'
    decreases |id|
  {
    if |id| == 0 || id[0] == '/' then "" else [id[0]] + ProviderOf(id[1..])
  }

  /** One active filter criterion of `filter_models`. */
  datatype Criterion = NameHas(name: string) | ContextAtLeast(min: int) | ProviderHas(provider: string)

  /** Whether a model passes one criterion; a missing name is "" and a missing context length is 0. */
  predicate Satisfies(m: ModelInfo, c: Criterion): (b: bool)
    ensures c.NameHas? ==> (b <==> OccursIn(Lower(m.name.GetOr("")), Lower(c.name)))
    ensures c.ContextAtLeast? ==>
              (b <==> if m.contextLength.Some? then m.contextLength.value >= c.min else c.min <= 0)
    ensures c.ProviderHas? ==> (b <==> OccursIn(ProviderOf(Lower(m.id)), Lower(c.provider)))
  {
    match c
    case NameHas(n) => ContainsIffOccurs(Lower(m.name.GetOr("")), Lower(n)); Contains(Lower(m.name.GetOr("")), Lower(n))
    case ContextAtLeast(k) => m.contextLength.GetOr(0) >= k
    case ProviderHas(p) =>
      var provider := ProviderOf(Lower(m.id));
      ContainsIffOccurs(provider, Lower(p));
      Contains(provider, Lower(p))
  }

  /** The name criterion a `name` argument imposes: none when it is `None` or "" (falsy in Python). */
  function NamePart(name: Option<string>): seq<Criterion> {
    if name.Some? && name.value != "" then [NameHas(name.value)] else []
  }

  /** The context-length criterion: none when the argument is `None` or 0. */
  function ContextPart(minContextLength: Option<int>): seq<Criterion> {
    if minContextLength.Some? && minContextLength.value != 0 then [ContextAtLeast(minContextLength.value)] else []
  }

  /** The provider criterion: none when the argument is `None` or "". */
  function ProviderPart(provider: Option<string>): seq<Criterion> {
    if provider.Some? && provider.value != "" then [ProviderHas(provider.value)] else []
  }

  /** The criteria a call of `filter_models` applies, in the order it applies them. */
  function ActiveCriteria(name: Option<string>, minContextLength: Option<int>, provider: Option<string>): (cs: seq<Criterion>)
    ensures forall n :: NameHas(n) in cs <==> name == Some(n) && n != ""
    ensures forall k :: ContextAtLeast(k) in cs <==> minContextLength == Some(k) && k != 0
    ensures forall p :: ProviderHas(p) in cs <==> provider == Some(p) && p != ""
  {
    NamePart(name) + ContextPart(minContextLength) + ProviderPart(provider)
  }

  /** A model passes every criterion in `cs`. */
  predicate MatchesAll(m: ModelInfo, cs: seq<Criterion>) {
    forall c :: c in cs ==> Satisfies(m, c)
  }

  /** One order-preserving pass keeping the models that pass every criterion in `cs`:
      a list comprehension `[m for m in models if ...]`. */
  function KeepAll(models: seq<ModelInfo>, cs: seq<Criterion>): (r: seq<ModelInfo>)
    ensures IsSubsequence(r, models)
    ensures forall m :: multiset(r)[m] == if MatchesAll(m, cs) then multiset(models)[m] else 0
    ensures forall m :: m in r <==> m in models && MatchesAll(m, cs)
    decreases |models|
  {
    if |models| == 0 then []
    else
      var rest := KeepAll(models[1..], cs);
      assert models == [models[0]] + models[1..];
      if MatchesAll(models[0], cs) then [models[0]] + rest else rest
  }

  /** Applies the one-criterion comprehensions one after another, in the order of `cs`. */
  function ApplyInOrder(models: seq<ModelInfo>, cs: seq<Criterion>): seq<ModelInfo>
    decreases |cs|
  {
    if |cs| == 0 then models else ApplyInOrder(KeepAll(models, [cs[0]]), cs[1..])
  }

  /** `filter_models(models, name, min_context_length, provider)`, step by step as written:
      the name filter, then the context-length filter, then the provider filter. */
  function FilterModels(models: seq<ModelInfo>, name: Option<string>, minContextLength: Option<int>, provider: Option<string>): (r: seq<ModelInfo>)
    ensures ActiveCriteria(name, minContextLength, provider) == [] ==> r == models
    ensures r == KeepAll(models, ActiveCriteria(name, minContextLength, provider))
    ensures r == ApplyInOrder(models, ActiveCriteria(name, minContextLength, provider))
    ensures IsSubsequence(r, models)
    ensures forall m :: m in r <==> m in models && MatchesAll(m, ActiveCriteria(name, minContextLength, provider))
  {
    var byName := if name.Some? && name.value != "" then KeepAll(models, [NameHas(name.value)]) else models;
    var byContext := if minContextLength.Some? && minContextLength.value != 0 then KeepAll(byName, [ContextAtLeast(minContextLength.value)]) else byName;
    var byProvider := if provider.Some? && provider.value != "" then KeepAll(byContext, [ProviderHas(provider.value)]) else byContext;
    FilterStepsAreOnePass(models, byName, byContext, byProvider, NamePart(name), ContextPart(minContextLength), ProviderPart(provider));
    byProvider
  }

  /** A pass with zero or one criterion, or no pass at all when the criterion is inactive. */
  lemma FilterStep(models: seq<ModelInfo>, part: seq<Criterion>)
    requires |part| <= 1
    ensures KeepAll(models, part) == if |part| == 0 then models else KeepAll(models, [part[0]])
  {
    if |part| == 0 {
      KeepAllNoCriteria(models);
    } else {
      assert part == [part[0]];
    }
  }

  /** The three guarded comprehensions of `filter_models` amount to one pass with all active criteria. */
  lemma FilterStepsAreOnePass(models: seq<ModelInfo>, byName: seq<ModelInfo>, byContext: seq<ModelInfo>, byProvider: seq<ModelInfo>,
                              a: seq<Criterion>, b: seq<Criterion>, c: seq<Criterion>)
    requires |a| <= 1 && |b| <= 1 && |c| <= 1
    requires byName == if |a| == 0 then models else KeepAll(models, [a[0]])
    requires byContext == if |b| == 0 then byName else KeepAll(byName, [b[0]])
    requires byProvider == if |c| == 0 then byContext else KeepAll(byContext, [c[0]])
    ensures byProvider == KeepAll(models, a + b + c)
    ensures byProvider == ApplyInOrder(models, a + b + c)
  {
    FilterStep(models, a);
    FilterStep(byName, b);
    FilterStep(byContext, c);
    KeepAllCompose(models, a, b);
    KeepAllCompose(models, a + b, c);
    ApplyInOrderIsOnePass(models, a + b + c);
  }

  /** Keeping the models that pass `a`, then those that pass `b`, is one pass with both. */
  lemma {:induction false} KeepAllCompose(models: seq<ModelInfo>, a: seq<Criterion>, b: seq<Criterion>)
    ensures KeepAll(KeepAll(models, a), b) == KeepAll(models, a + b)
    decreases |models|
  {
    if |models| > 0 {
      KeepAllCompose(models[1..], a, b);
      var m := models[0];
      assert MatchesAll(m, a + b) <==> MatchesAll(m, a) && MatchesAll(m, b);
    }
  }

  /** Only which criteria are present matters, not their order or repetition. */
  lemma {:induction false} KeepAllSameCriteria(models: seq<ModelInfo>, a: seq<Criterion>, b: seq<Criterion>)
    requires forall c :: c in a <==> c in b
    ensures KeepAll(models, a) == KeepAll(models, b)
    decreases |models|
  {
    if |models| > 0 {
      KeepAllSameCriteria(models[1..], a, b);
      assert MatchesAll(models[0], a) <==> MatchesAll(models[0], b);
    }
  }

  /** Successive one-criterion passes are the single pass with all the criteria. */
  lemma {:induction false} ApplyInOrderIsOnePass(models: seq<ModelInfo>, cs: seq<Criterion>)
    ensures ApplyInOrder(models, cs) == KeepAll(models, cs)
    decreases |cs|
  {
    if |cs| == 0 {
      KeepAllNoCriteria(models);
    } else {
      ApplyInOrderIsOnePass(KeepAll(models, [cs[0]]), cs[1..]);
      KeepAllCompose(models, [cs[0]], cs[1..]);
      assert [cs[0]] + cs[1..] == cs;
    }
  }

  /** With no criteria, nothing is dropped. */
  lemma {:induction false} KeepAllNoCriteria(models: seq<ModelInfo>)
    ensures KeepAll(models, []) == models
    decreases |models|
  {
    if |models| > 0 {
      KeepAllNoCriteria(models[1..]);
      assert [models[0]] + models[1..] == models;
    }
  }

  /** Applying the same criteria in any order, or any repetition, gives the same list. */
  lemma CriteriaOrderIrrelevant(models: seq<ModelInfo>, a: seq<Criterion>, b: seq<Criterion>)
    requires forall c :: c in a <==> c in b
    ensures ApplyInOrder(models, a) == ApplyInOrder(models, b)
  {
    ApplyInOrderIsOnePass(models, a);
    ApplyInOrderIsOnePass(models, b);
    KeepAllSameCriteria(models, a, b);
  }

  /** `filter_models` is idempotent: filtering its result again changes nothing. */
  lemma FilterModelsIdempotent(models: seq<ModelInfo>, name: Option<string>, minContextLength: Option<int>, provider: Option<string>)
    ensures var once := FilterModels(models, name, minContextLength, provider);
            FilterModels(once, name, minContextLength, provider) == once
  {
    var cs := ActiveCriteria(name, minContextLength, provider);
    KeepAllCompose(models, cs, cs);
    KeepAllSameCriteria(models, cs + cs, cs);
  }
}
