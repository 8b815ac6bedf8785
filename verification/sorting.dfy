/**
 * `sort_models` (openrouterfreescanner/main.py): Python's stable `sorted` of the
 * catalog by `model.get(sort_by, 0)`, ascending or, with `reverse`, descending.
 */
module Sorting {
  import opened Basics
  import opened Catalog

  /** The sort key of a model: `model.get(sort_by, 0)`. */
  function SortKey(m: ModelInfo, sortBy: string): (k: Value)
    ensures sortBy == "id" ==> k == Str(m.id)
    ensures sortBy == "name" ==> k == if m.name.Some? then Str(m.name.value) else Num(0.0)
    ensures sortBy == "context_length" ==> k == Num(m.contextLength.GetOr(0) as real)
    ensures sortBy !in {"id", "name", "context_length"} ==>
              k == if sortBy in m.extra then m.extra[sortBy] else Num(0.0)
  {
    Field(m, sortBy).GetOr(Num(0.0))
  }

  /** Python's `<` on strings: lexicographic by code point, a proper prefix first. */
  predicate StrLt(a: string, b: string)
    decreases |a|
  {
    if |b| == 0 then false
    else if |a| == 0 then true
    else if a[0] != b[0] then a[0] < b[0]
    else StrLt(a[1..], b[1..])
  }

  lemma {:induction false} StrLtIrreflexive(a: string)
    ensures !StrLt(a, a)
    decreases |a|
  {
    if |a| > 0 {
      StrLtIrreflexive(a[1..]);
    }
  }

  lemma {:induction false} StrLtTransitive(a: string, b: string, c: string)
    requires StrLt(a, b) && StrLt(b, c)
    ensures StrLt(a, c)
    decreases |a|
  {
    if |a| > 0 && a[0] == b[0] && b[0] == c[0] {
      StrLtTransitive(a[1..], b[1..], c[1..]);
    }
  }

  lemma {:induction false} StrLtTotal(a: string, b: string)
    ensures a == b || StrLt(a, b) || StrLt(b, a)
    decreases |a|
  {
    if |a| > 0 && |b| > 0 && a[0] == b[0] {
      StrLtTotal(a[1..], b[1..]);
      if a[1..] == b[1..] {
        assert a == [a[0]] + a[1..] && b == [b[0]] + b[1..];
      }
    }
  }

  lemma {:induction false} StrLtAsymmetric(a: string, b: string)
    requires StrLt(a, b)
    ensures !StrLt(b, a)
  {
    if StrLt(b, a) {
      StrLtTransitive(a, b, a);
      StrLtIrreflexive(a);
    }
  }

  /** The order `sorted` uses on keys of one kind: numbers numerically, strings
      lexicographically. Keys of different kinds, or unorderable ones, make Python raise
      `TypeError` (see `Orderable`); the order given them here is only there to make the
      relation total, and never decides a result. */
  predicate ValueLe(a: Value, b: Value) {
    match a
    case Num(x) => (match b case Num(y) => x <= y case _ => true)
    case Str(x) => (match b case Num(_) => false case Str(y) => x == y || StrLt(x, y) case Unordered => true)
    case Unordered => b.Unordered?
  }

  lemma ValueLeTotal(a: Value, b: Value)
    ensures ValueLe(a, b) || ValueLe(b, a)
  {
    if a.Str? && b.Str? {
      StrLtTotal(a.s, b.s);
    }
  }

  lemma ValueLeTransitive(a: Value, b: Value, c: Value)
    requires ValueLe(a, b) && ValueLe(b, c)
    ensures ValueLe(a, c)
  {
    if a.Str? && b.Str? && c.Str? && a.s != b.s && b.s != c.s {
      StrLtTransitive(a.s, b.s, c.s);
    }
  }

  lemma ValueLeAntisymmetric(a: Value, b: Value)
    requires ValueLe(a, b) && ValueLe(b, a)
    ensures a == b
  {
    if a.Str? && b.Str? && a.s != b.s {
      StrLtAsymmetric(a.s, b.s);
    }
  }

  /** `a` may come before `b` in the output: keys ascending, or descending with `reverse`. */
  predicate InOrder(a: ModelInfo, b: ModelInfo, sortBy: string, reverse: bool) {
    if reverse then ValueLe(SortKey(b, sortBy), SortKey(a, sortBy))
    else ValueLe(SortKey(a, sortBy), SortKey(b, sortBy))
  }

  lemma InOrderTotal(a: ModelInfo, b: ModelInfo, sortBy: string, reverse: bool)
    ensures InOrder(a, b, sortBy, reverse) || InOrder(b, a, sortBy, reverse)
  {
    ValueLeTotal(SortKey(a, sortBy), SortKey(b, sortBy));
  }

  lemma InOrderTransitive(a: ModelInfo, b: ModelInfo, c: ModelInfo, sortBy: string, reverse: bool)
    requires InOrder(a, b, sortBy, reverse) && InOrder(b, c, sortBy, reverse)
    ensures InOrder(a, c, sortBy, reverse)
  {
    if reverse {
      ValueLeTransitive(SortKey(c, sortBy), SortKey(b, sortBy), SortKey(a, sortBy));
    } else {
      ValueLeTransitive(SortKey(a, sortBy), SortKey(b, sortBy), SortKey(c, sortBy));
    }
  }

  lemma InOrderAntisymmetric(a: ModelInfo, b: ModelInfo, sortBy: string, reverse: bool)
    requires InOrder(a, b, sortBy, reverse) && InOrder(b, a, sortBy, reverse)
    ensures SortKey(a, sortBy) == SortKey(b, sortBy)
  {
    ValueLeAntisymmetric(SortKey(a, sortBy), SortKey(b, sortBy));
  }

  /** Every earlier model may precede every later one. */
  predicate SortedBy(s: seq<ModelInfo>, sortBy: string, reverse: bool) {
    forall i, j :: 0 <= i < j < |s| ==> InOrder(s[i], s[j], sortBy, reverse)
  }

  /** The models of `s` whose key is `k`, in their order in `s`. */
  function WithKey(s: seq<ModelInfo>, k: Value, sortBy: string): (r: seq<ModelInfo>)
    ensures forall m :: m in r ==> m in s && SortKey(m, sortBy) == k
    decreases |s|
  {
    if |s| == 0 then []
    else (if SortKey(s[0], sortBy) == k then [s[0]] else []) + WithKey(s[1..], k, sortBy)
  }

  /** Stability: every group of equal keys keeps its relative order. */
  ghost predicate Stable(out: seq<ModelInfo>, input: seq<ModelInfo>, sortBy: string) {
    forall k :: WithKey(out, k, sortBy) == WithKey(input, k, sortBy)
  }

  /** Places `x` before the first model it may precede; every model it skips has a different key. */
  function Insert(x: ModelInfo, s: seq<ModelInfo>, sortBy: string, reverse: bool): (r: seq<ModelInfo>)
    ensures multiset(r) == multiset(s) + multiset{x}
    decreases |s|
  {
    if |s| == 0 || InOrder(x, s[0], sortBy, reverse) then
      [x] + s
    else
      assert s == [s[0]] + s[1..];
      [s[0]] + Insert(x, s[1..], sortBy, reverse)
  }

  /** The group of a key, read off a list with one more model in front. */
  lemma WithKeyCons(x: ModelInfo, s: seq<ModelInfo>, k: Value, sortBy: string)
    ensures WithKey([x] + s, k, sortBy) == (if SortKey(x, sortBy) == k then [x] else []) + WithKey(s, k, sortBy)
  {
    assert ([x] + s)[1..] == s;
  }

  /** Inserting `x` adds it at the front of its own key group and leaves the other groups alone. */
  lemma {:induction false} InsertWithKey(x: ModelInfo, s: seq<ModelInfo>, k: Value, sortBy: string, reverse: bool)
    ensures WithKey(Insert(x, s, sortBy, reverse), k, sortBy)
         == if SortKey(x, sortBy) == k then [x] + WithKey(s, k, sortBy) else WithKey(s, k, sortBy)
    decreases |s|
  {
    if |s| == 0 || InOrder(x, s[0], sortBy, reverse) {
      WithKeyCons(x, s, k, sortBy);
    } else {
      var rest := Insert(x, s[1..], sortBy, reverse);
      InsertWithKey(x, s[1..], k, sortBy, reverse);
      WithKeyCons(s[0], rest, k, sortBy);
      InOrderTotal(x, s[0], sortBy, reverse);
      assert SortKey(s[0], sortBy) != SortKey(x, sortBy);
    }
  }

  /** Inserting into a sorted list keeps it sorted. */
  lemma {:induction false} InsertKeepsSorted(x: ModelInfo, s: seq<ModelInfo>, sortBy: string, reverse: bool)
    requires SortedBy(s, sortBy, reverse)
    ensures SortedBy(Insert(x, s, sortBy, reverse), sortBy, reverse)
    decreases |s|
  {
    if |s| == 0 {
    } else if InOrder(x, s[0], sortBy, reverse) {
      forall k | 0 <= k < |s|
        ensures InOrder(x, s[k], sortBy, reverse)
      {
        if k > 0 {
          InOrderTransitive(x, s[0], s[k], sortBy, reverse);
        }
      }
      ConsSorted(x, s, sortBy, reverse);
    } else {
      var rest := Insert(x, s[1..], sortBy, reverse);
      assert SortedBy(s[1..], sortBy, reverse);
      InsertKeepsSorted(x, s[1..], sortBy, reverse);
      InOrderTotal(x, s[0], sortBy, reverse);
      forall k | 0 <= k < |rest|
        ensures InOrder(s[0], rest[k], sortBy, reverse)
      {
        assert rest[k] in multiset(rest);
        if rest[k] != x {
          assert rest[k] in multiset(s[1..]);
          var i :| 0 <= i < |s[1..]| && s[1..][i] == rest[k];
          assert InOrder(s[0], s[i + 1], sortBy, reverse);
        }
      }
      ConsSorted(s[0], rest, sortBy, reverse);
    }
  }

  /** A model in order with every model of a sorted list may go in front of it. */
  lemma ConsSorted(h: ModelInfo, rest: seq<ModelInfo>, sortBy: string, reverse: bool)
    requires SortedBy(rest, sortBy, reverse)
    requires forall k :: 0 <= k < |rest| ==> InOrder(h, rest[k], sortBy, reverse)
    ensures SortedBy([h] + rest, sortBy, reverse)
  {
    var r := [h] + rest;
    forall i, j | 0 <= i < j < |r|
      ensures InOrder(r[i], r[j], sortBy, reverse)
    {
      assert r[j] == rest[j - 1];
      if i > 0 {
        assert r[i] == rest[i - 1];
      }
    }
  }


  /** Insertion sort: a stable sort of `s`. */
  function InsertionSort(s: seq<ModelInfo>, sortBy: string, reverse: bool): (r: seq<ModelInfo>)
    ensures multiset(r) == multiset(s)
    ensures SortedBy(r, sortBy, reverse)
    ensures Stable(r, s, sortBy)
    decreases |s|
  {
    if |s| == 0 then []
    else
      var sortedTail := InsertionSort(s[1..], sortBy, reverse);
      assert s == [s[0]] + s[1..];
      InsertKeepsSorted(s[0], sortedTail, sortBy, reverse);
      InsertionSortStable(s[0], sortedTail, s, sortBy, reverse);
      Insert(s[0], sortedTail, sortBy, reverse)
  }

  /** The inductive step of the stability of `InsertionSort`. */
  lemma InsertionSortStable(x: ModelInfo, sortedTail: seq<ModelInfo>, s: seq<ModelInfo>, sortBy: string, reverse: bool)
    requires |s| > 0 && x == s[0]
    requires Stable(sortedTail, s[1..], sortBy)
    ensures Stable(Insert(x, sortedTail, sortBy, reverse), s, sortBy)
  {
    forall k
      ensures WithKey(Insert(x, sortedTail, sortBy, reverse), k, sortBy) == WithKey(s, k, sortBy)
    {
      assert s == [x] + s[1..];
      assert WithKey(sortedTail, k, sortBy) == WithKey(s[1..], k, sortBy);
      InsertWithKey(x, sortedTail, k, sortBy, reverse);
      WithKeyCons(x, s[1..], k, sortBy);
    }
  }

  /** Python's `sorted` compares keys with `<`; with two or more models every one of them is
      compared, so it raises `TypeError` unless all keys are numbers or all are strings. */
  predicate Orderable(models: seq<ModelInfo>, sortBy: string) {
    || |models| <= 1
    || (forall i :: 0 <= i < |models| ==> SortKey(models[i], sortBy).Num?)
    || (forall i :: 0 <= i < |models| ==> SortKey(models[i], sortBy).Str?)
  }

  datatype SortResult = Sorted(models: seq<ModelInfo>) | TypeError

  /** `sort_models(models, sort_by, reverse)`. */
  function SortModels(models: seq<ModelInfo>, sortBy: string, reverse: bool): (r: SortResult)
    ensures r.Sorted? <==> Orderable(models, sortBy)
    ensures r.Sorted? ==> multiset(r.models) == multiset(models)
    ensures r.Sorted? ==> SortedBy(r.models, sortBy, reverse)
    ensures r.Sorted? ==> Stable(r.models, models, sortBy)
  {
    if Orderable(models, sortBy) then Sorted(InsertionSort(models, sortBy, reverse)) else TypeError
  }

  /** The first model of a list heads the group of its own key. */
  lemma WithKeyOwnGroup(s: seq<ModelInfo>, sortBy: string)
    requires |s| > 0
    ensures WithKey(s, SortKey(s[0], sortBy), sortBy) != []
  {
    WithKeyCons(s[0], s[1..], SortKey(s[0], sortBy), sortBy);
    assert s == [s[0]] + s[1..];
  }

  /** Two sorted, stable arrangements of the same models begin with the same model. */
  lemma SameFirst(a: seq<ModelInfo>, b: seq<ModelInfo>, sortBy: string, reverse: bool)
    requires |a| > 0 && |b| > 0
    requires SortedBy(a, sortBy, reverse) && SortedBy(b, sortBy, reverse)
    requires Stable(a, b, sortBy)
    ensures a[0] == b[0]
  {
    var ka, kb := SortKey(a[0], sortBy), SortKey(b[0], sortBy);
    WithKeyCons(a[0], a[1..], ka, sortBy);
    WithKeyCons(b[0], b[1..], kb, sortBy);
    assert a == [a[0]] + a[1..] && b == [b[0]] + b[1..];
    assert b[0] in WithKey(a, kb, sortBy);
    var i :| 0 <= i < |a| && a[i] == b[0];
    assert a[0] in WithKey(b, ka, sortBy);
    var j :| 0 <= j < |b| && b[j] == a[0];
    if ka != kb {
      assert i > 0 && j > 0;
      assert InOrder(a[0], a[i], sortBy, reverse);
      assert InOrder(b[0], b[j], sortBy, reverse);
      InOrderAntisymmetric(a[0], b[0], sortBy, reverse);
    }
    WithKeyCons(b[0], b[1..], ka, sortBy);
    assert WithKey(a, ka, sortBy)[0] == WithKey(b, ka, sortBy)[0];
  }

  /** A sorted, stable arrangement is unique: any two that agree on every group of equal keys
      are equal. So `InsertionSort` returns exactly what any correct stable sort returns. */
  lemma {:induction false} SortUnique(a: seq<ModelInfo>, b: seq<ModelInfo>, sortBy: string, reverse: bool)
    requires SortedBy(a, sortBy, reverse) && SortedBy(b, sortBy, reverse)
    requires Stable(a, b, sortBy)
    ensures a == b
    decreases |a|
  {
    if |a| == 0 && |b| > 0 {
      WithKeyOwnGroup(b, sortBy);
    } else if |a| > 0 && |b| == 0 {
      WithKeyOwnGroup(a, sortBy);
    } else if |a| > 0 {
      SameFirst(a, b, sortBy, reverse);
      forall k
        ensures WithKey(a[1..], k, sortBy) == WithKey(b[1..], k, sortBy)
      {
        assert a == [a[0]] + a[1..] && b == [b[0]] + b[1..];
        WithKeyCons(a[0], a[1..], k, sortBy);
        WithKeyCons(b[0], b[1..], k, sortBy);
        var front := if SortKey(a[0], sortBy) == k then [a[0]] else [];
        assert WithKey(a, k, sortBy) == WithKey(b, k, sortBy);
        assert WithKey(a[1..], k, sortBy) == WithKey(a, k, sortBy)[|front|..];
        assert WithKey(b[1..], k, sortBy) == WithKey(b, k, sortBy)[|front|..];
      }
      assert SortedBy(a[1..], sortBy, reverse);
      assert SortedBy(b[1..], sortBy, reverse);
      SortUnique(a[1..], b[1..], sortBy, reverse);
      assert a == [a[0]] + a[1..] && b == [b[0]] + b[1..];
    }
  }

  /** A list already in order comes back unchanged. */
  lemma SortSortedUnchanged(models: seq<ModelInfo>, sortBy: string, reverse: bool)
    requires SortedBy(models, sortBy, reverse)
    ensures InsertionSort(models, sortBy, reverse) == models
  {
    var r := InsertionSort(models, sortBy, reverse);
    forall k
      ensures WithKey(r, k, sortBy) == WithKey(models, k, sortBy)
    {
    }
    SortUnique(r, models, sortBy, reverse);
  }

  /** `sort_models` returns a list of mutually comparable keys that is already in order unchanged. */
  lemma SortModelsSortedUnchanged(models: seq<ModelInfo>, sortBy: string, reverse: bool)
    requires Orderable(models, sortBy)
    requires SortedBy(models, sortBy, reverse)
    ensures SortModels(models, sortBy, reverse) == Sorted(models)
  {
    SortSortedUnchanged(models, sortBy, reverse);
  }

  /** Sorting twice is sorting once. */
  lemma SortModelsIdempotent(models: seq<ModelInfo>, sortBy: string, reverse: bool)
    requires SortModels(models, sortBy, reverse).Sorted?
    ensures SortModels(SortModels(models, sortBy, reverse).models, sortBy, reverse) == SortModels(models, sortBy, reverse)
  {
    var once := SortModels(models, sortBy, reverse).models;
    SortSortedUnchanged(once, sortBy, reverse);
    assert Orderable(once, sortBy) by {
      if |models| > 1 {
        assert |once| == |models| by {
          assert |multiset(once)| == |multiset(models)|;
        }
        forall i | 0 <= i < |once|
          ensures once[i] in models
        {
          assert once[i] in multiset(once);
        }
      }
    }
  }
}
