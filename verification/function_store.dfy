/** bezier-canvas/js/modules/MathFunctionStore.mjs: a table of the results of
    one function `fn(...staticParams, value)`, keyed by `value`, pre-filled
    over a `{min, max, step}` range, cleared when the fingerprint of
    `(params, rangeOptions)` changes, and filled on demand on a miss. */
module FunctionStore {
  import opened Wrappers

  datatype RangeOptions = RangeOptions(min: real, max: real, step: real)

  /** The loop `for (i = min; i <= max; i += step)` ends: either the step
      moves `i` upwards or the body never runs. */
  predicate Terminates(ro: RangeOptions)
  {
    ro.step > 0.0 || ro.min > ro.max
  }

  /** The k-th value of the loop variable: `min + k * step`. */
  function Key(ro: RangeOptions, k: int): real
  {
    ro.min + k as real * ro.step
  }

  /** `i += step` moves the loop variable to the next key. */
  lemma NextKey(ro: RangeOptions, k: int)
    ensures Key(ro, k + 1) == Key(ro, k) + ro.step
  {
    assert (k + 1) as real * ro.step == k as real * ro.step + ro.step;
  }

  /** How many times the loop body runs. */
  function SampleCount(ro: RangeOptions): nat
    requires Terminates(ro)
  {
    if ro.min > ro.max then 0
    else
      var q := (ro.max - ro.min) / ro.step;
      assert 0.0 <= q by { assert q * ro.step == ro.max - ro.min; }
      q.Floor + 1
  }

  /** The loop variable runs while it is at most `max`: the k-th key is in
      range exactly when k is below the number of iterations. */
  lemma {:induction false} KeyInRange(ro: RangeOptions, k: nat)
    requires ro.step > 0.0 || (ro.min > ro.max && k == 0)
    ensures Key(ro, k) <= ro.max <==> k < SampleCount(ro)
  {
    if ro.min <= ro.max {
      var q := (ro.max - ro.min) / ro.step;
      assert q * ro.step == ro.max - ro.min;
      if k as real <= q {
        assert k as real * ro.step <= q * ro.step;
      } else {
        assert k as real * ro.step > q * ro.step;
      }
    } else if k > 0 {
      assert k as real * ro.step >= 0.0;
    }
  }

  /** The keys `generateResults` visits, in order. */
  function RangeKeys(ro: RangeOptions): (keys: seq<real>)
    requires Terminates(ro)
    ensures |keys| == SampleCount(ro)
    ensures forall j :: 0 <= j < |keys| ==> keys[j] == Key(ro, j)
  {
    seq(SampleCount(ro), j => Key(ro, j))
  }

  /** One pass of the loop body: the loop variable is the next key, and
      `i += step` moves it to the key after. */
  lemma SweepStep(ro: RangeOptions, k: nat, i: real)
    requires Terminates(ro) && k <= |RangeKeys(ro)| && i == Key(ro, k) && i <= ro.max
    ensures k < |RangeKeys(ro)| && RangeKeys(ro)[k] == i && i + ro.step == Key(ro, k + 1)
  {
    KeyInRange(ro, k);
    NextKey(ro, k);
  }

  /** When the loop condition fails, every key has been visited. */
  lemma SweepEnd(ro: RangeOptions, k: nat, i: real)
    requires Terminates(ro) && i == Key(ro, k) && k <= |RangeKeys(ro)| && !(i <= ro.max)
    ensures k == |RangeKeys(ro)|
  {
    KeyInRange(ro, k);
  }

  /** A larger iteration count gives a larger loop variable. */
  lemma KeyIncreasing(ro: RangeOptions, j: int, k: int)
    requires ro.step > 0.0 && j < k
    ensures Key(ro, j) < Key(ro, k)
  {
    assert (k - j) as real * ro.step > 0.0;
    assert k as real * ro.step == j as real * ro.step + (k - j) as real * ro.step;
  }

  /** The sweep starts at `min`, visits the keys in strictly increasing
      order (so no key is visited twice), and its last key is followed by
      one above `max`. */
  lemma RangeKeysAscend(ro: RangeOptions)
    requires ro.step > 0.0
    ensures ro.min <= ro.max ==> |RangeKeys(ro)| > 0 && RangeKeys(ro)[0] == ro.min
    ensures forall j, k :: 0 <= j < k < |RangeKeys(ro)| ==> RangeKeys(ro)[j] < RangeKeys(ro)[k]
    ensures Key(ro, |RangeKeys(ro)|) > ro.max
  {
    KeyInRange(ro, 0);
    KeyInRange(ro, |RangeKeys(ro)|);
    forall j, k | 0 <= j < k < |RangeKeys(ro)|
      ensures RangeKeys(ro)[j] < RangeKeys(ro)[k]
    {
      KeyIncreasing(ro, j, k);
    }
  }

  /** The keys visited are exactly the values `min + k * step <= max`. */
  lemma RangeKeysAreTheGrid(ro: RangeOptions)
    requires ro.step > 0.0
    ensures forall k: nat :: Key(ro, k) <= ro.max ==> Key(ro, k) in RangeKeys(ro)
    ensures forall j :: 0 <= j < |RangeKeys(ro)| ==> ro.min <= RangeKeys(ro)[j] <= ro.max
  {
    forall k: nat | Key(ro, k) <= ro.max
      ensures Key(ro, k) in RangeKeys(ro)
    {
      KeyInRange(ro, k);
      assert RangeKeys(ro)[k] == Key(ro, k);
    }
    forall j | 0 <= j < |RangeKeys(ro)|
      ensures ro.min <= RangeKeys(ro)[j] <= ro.max
    {
      KeyInRange(ro, j);
      assert j as real * ro.step >= 0.0;
    }
  }

  /** The function being cached, with its declared parameter count
      (`fn.length`); the varying parameter comes last. */
  datatype CachedFunction<!P, R> = CachedFunction(arity: nat, apply: (seq<P>, real) -> R)

  /** What `JSON.stringify({ params, rangeOptions })` distinguishes. */
  datatype Fingerprint<P> = Fingerprint(params: seq<P>, rangeOptions: RangeOptions)

  /** The errors: the arity check of `setConfigs`, and the TypeError of
      calling the function or reading the range before any configuration. */
  datatype StoreError = WrongUsage | NotConfigured

  /** The table the store holds for `keys`. */
  function Samples<P, R>(f: CachedFunction<P, R>, params: seq<P>, keys: seq<real>): map<real, R>
  {
    map key | key in keys :: f.apply(params, key)
  }

  lemma SamplesExtend<P, R>(f: CachedFunction<P, R>, params: seq<P>, keys: seq<real>, key: real)
    ensures Samples(f, params, keys + [key]) == Samples(f, params, keys)[key := f.apply(params, key)]
  {
  }

  /** Storing the next key of the sweep extends the table by one sample. */
  lemma {:induction false} SamplesGrow<P, R>(base: map<real, R>, f: CachedFunction<P, R>, params: seq<P>, keys: seq<real>, k: nat)
    requires k < |keys|
    ensures (base + Samples(f, params, keys[..k]))[keys[k] := f.apply(params, keys[k])]
            == base + Samples(f, params, keys[..k + 1])
  {
    assert keys[..k + 1] == keys[..k] + [keys[k]];
    SamplesExtend(f, params, keys[..k], keys[k]);
  }

  /** A table that agrees with `f` still agrees after the samples of `f` are added. */
  lemma {:induction false} SamplesKeepAgreement<P, R>(base: map<real, R>, f: CachedFunction<P, R>, params: seq<P>, keys: seq<real>)
    requires forall key :: key in base ==> base[key] == f.apply(params, key)
    ensures var table := base + Samples(f, params, keys);
      forall key :: key in table ==> table[key] == f.apply(params, key)
  {
    var table := base + Samples(f, params, keys);
    forall key | key in table
      ensures table[key] == f.apply(params, key)
    {
      if key !in Samples(f, params, keys) {
        assert key in base;
      }
    }
  }

  /** The keys of a list of entries. */
  function KeysOf<R>(entries: seq<(real, R)>): set<real>
  {
    set i | 0 <= i < |entries| :: entries[i].0
  }

  lemma {:induction false} KeysOfAppend<R>(entries: seq<(real, R)>, entry: (real, R))
    ensures KeysOf(entries + [entry]) == KeysOf(entries) + {entry.0}
  {
    var longer := entries + [entry];
    forall key | key in KeysOf(longer)
      ensures key in KeysOf(entries) + {entry.0}
    {
      var i :| 0 <= i < |longer| && longer[i].0 == key;
      if i < |entries| {
        assert entries[i].0 == key;
      }
    }
    forall key | key in KeysOf(entries) + {entry.0}
      ensures key in KeysOf(longer)
    {
      if key == entry.0 {
        assert longer[|entries|].0 == key;
      } else {
        var i :| 0 <= i < |entries| && entries[i].0 == key;
        assert longer[i].0 == key;
      }
    }
  }

  /** Part-way through listing `data` by ascending key: `entries` holds the
      keys of `data` not in `remaining`, in order, each below every key still
      remaining. */
  ghost predicate Listing<R>(data: map<real, R>, entries: seq<(real, R)>, remaining: set<real>)
  {
    && remaining <= data.Keys
    && |entries| + |remaining| == |data.Keys|
    && KeysOf(entries) == data.Keys - remaining
    && (forall i :: 0 <= i < |entries| ==> entries[i].0 in data && entries[i].1 == data[entries[i].0])
    && (forall i, j :: 0 <= i < j < |entries| ==> entries[i].0 < entries[j].0)
    && (forall i, key :: 0 <= i < |entries| && key in remaining ==> entries[i].0 < key)
  }

  /** Moving the least remaining key to the end of the list keeps the listing. */
  lemma {:induction false} ListingStep<R>(data: map<real, R>, entries: seq<(real, R)>, remaining: set<real>, least: real)
    requires Listing(data, entries, remaining)
    requires least in remaining && forall key :: key in remaining ==> least <= key
    ensures Listing(data, entries + [(least, data[least])], remaining - {least})
  {
    var longer := entries + [(least, data[least])];
    var rest := remaining - {least};
    KeysOfAppend(entries, (least, data[least]));
    assert |rest| == |remaining| - 1;
    forall i, j | 0 <= i < j < |longer|
      ensures longer[i].0 < longer[j].0
    {
      if j == |entries| {
        assert entries[i].0 < least;
      } else {
        assert longer[i] == entries[i] && longer[j] == entries[j];
      }
    }
    forall i, key | 0 <= i < |longer| && key in rest
      ensures longer[i].0 < key
    {
      if i == |entries| {
        assert least <= key && least != key;
      } else {
        assert longer[i] == entries[i];
      }
    }
  }

  /** A finite non-empty set of keys has a least element. */
  lemma {:induction false} LeastKey(s: set<real>) returns (least: real)
    requires s != {}
    ensures least in s && forall x :: x in s ==> least <= x
  {
    if forall y :: y !in s {
      assert false;
    }
    var x :| x in s;
    if s == {x} {
      least := x;
    } else {
      var rest := s - {x};
      var m := LeastKey(rest);
      least := if x < m then x else m;
      forall y | y in s
        ensures least <= y
      {
        if y != x {
          assert y in rest;
        }
      }
    }
  }

  class MathFunctionStore<P(==), R> {
    /** JavaScript truthiness of a stored result (`if (!result)`). */
    const truthy: R -> bool

    var data: map<real, R>
    var fn: Option<CachedFunction<P, R>>
    var cacheId: Option<Fingerprint<P>>
    var staticParams: seq<P>
    var rangeOptions: Option<RangeOptions>

    ghost predicate Valid()
      reads this
    {
      && (fn.None? ==> data == map[] && rangeOptions.None?)
      && (rangeOptions.Some? ==> Terminates(rangeOptions.value))
      && (cacheId.Some? ==> staticParams == cacheId.value.params)
    }

    /** Every stored entry is what the configured function gives for its key. */
    ghost predicate Consistent()
      reads this
    {
      fn.Some? ==> forall key :: key in data ==> data[key] == fn.value.apply(staticParams, key)
    }

    /** `new MathFunctionStore()`: nothing configured, nothing stored. */
    constructor(truthy: R -> bool)
      ensures Valid() && Consistent() && this.truthy == truthy
      ensures data == map[] && fn == None && cacheId == None && staticParams == [] && rangeOptions == None
    {
      this.truthy := truthy;
      data := map[];
      fn := None;
      cacheId := None;
      staticParams := [];
      rangeOptions := None;
    }

    /** `setConfigs({ fn, params }, rangeOptions)`. */
    method SetConfigs(f: CachedFunction<P, R>, params: seq<P>, ro: RangeOptions) returns (outcome: Outcome<StoreError>)
      requires Valid()
      requires |params| + 1 == f.arity ==> Terminates(ro)
      modifies this`data, this`fn, this`cacheId, this`staticParams, this`rangeOptions
      ensures Valid()
      ensures cacheId == Some(Fingerprint(params, ro)) && fn == Some(f) && staticParams == params
      ensures var kept := if old(cacheId) == Some(Fingerprint(params, ro)) then old(data) else map[];
        if |params| + 1 != f.arity then
          outcome == Fail(WrongUsage) && rangeOptions == old(rangeOptions) && data == kept
        else
          outcome == Pass && rangeOptions == Some(ro) && data == kept + Samples(f, params, RangeKeys(ro))
      ensures old(cacheId) != Some(Fingerprint(params, ro)) || (old(fn) == Some(f) && old(Consistent())) ==>
        Consistent()
    {
      var id := Fingerprint(params, ro);
      if cacheId != Some(id) {
        ResetStore();
        cacheId := Some(id);
      }
      fn := Some(f);
      staticParams := params;
      if |params| + 1 != f.arity {
        return Fail(WrongUsage);
      }
      rangeOptions := Some(ro);
      outcome := GenerateResults();
    }

    /** `#setNewResult(value)`: compute and store the entry for `value`. */
    method SetNewResult(value: real)
      requires Valid() && fn.Some?
      modifies this`data
      ensures Valid()
      ensures data == old(data)[value := fn.value.apply(staticParams, value)]
      ensures old(Consistent()) ==> Consistent()
    {
      var result := fn.value.apply(staticParams, value);
      data := data[value := result];
    }

    /** `generateResults()`: store the result for every key of the range. */
    method GenerateResults() returns (outcome: Outcome<StoreError>)
      requires Valid()
      modifies this`data
      ensures Valid()
      ensures rangeOptions.None? ==> outcome == Fail(NotConfigured) && data == old(data)
      ensures rangeOptions.Some? ==>
        outcome == Pass && data == old(data) + Samples(fn.value, staticParams, RangeKeys(rangeOptions.value))
      ensures old(Consistent()) ==> Consistent()
    {
      if rangeOptions.None? {
        return Fail(NotConfigured);
      }
      var ro := rangeOptions.value;
      ghost var keys := RangeKeys(ro);
      var i := ro.min;
      ghost var k: nat := 0;
      while i <= ro.max
        invariant Valid()
        invariant k <= |keys| && i == Key(ro, k)
        invariant data == old(data) + Samples(fn.value, staticParams, keys[..k])
        decreases |keys| - k
      {
        SweepStep(ro, k, i);
        SamplesGrow(old(data), fn.value, staticParams, keys, k);
        SetNewResult(i);
        i := i + ro.step;
        k := k + 1;
      }
      SweepEnd(ro, k, i);
      assert keys[..k] == keys;
      outcome := Pass;
      if old(Consistent()) {
        SamplesKeepAgreement(old(data), fn.value, staticParams, keys);
      }
    }

    /** `resetStore()`: empty the table, touching no other field. */
    method ResetStore()
      requires Valid()
      modifies this`data
      ensures Valid() && data == map[]
    {
      if |data| > 0 {
        data := map[];
      }
    }

    /** `retrieveResult(value)`: a stored truthy result is returned as it is;
        otherwise the result is computed, stored and returned. */
    method RetrieveResult(value: real) returns (result: Result<R, StoreError>)
      requires Valid()
      modifies this`data
      ensures Valid()
      ensures value in old(data) && truthy(old(data)[value]) ==>
        data == old(data) && result == Ok(old(data)[value])
      ensures !(value in old(data) && truthy(old(data)[value])) ==>
        if fn.Some? then
          data == old(data)[value := fn.value.apply(staticParams, value)] && result == Ok(data[value])
        else
          data == old(data) && result == Err(NotConfigured)
      ensures result.Ok? ==> value in data && result.value == data[value]
      ensures old(Consistent()) ==> Consistent()
      ensures old(Consistent()) && result.Ok? ==> result.value == fn.value.apply(staticParams, value)
    {
      var stored := if value in data then Some(data[value]) else None;
      if stored.Some? && truthy(stored.value) {
        return Ok(stored.value);
      }
      if fn.None? {
        return Err(NotConfigured);
      }
      SetNewResult(value);
      result := Ok(data[value]);
    }

    /** `retrieveAllResults()`: every stored entry once, by ascending key. */
    method RetrieveAllResults() returns (entries: seq<(real, R)>)
      ensures |entries| == |data| && KeysOf(entries) == data.Keys
      ensures forall i :: 0 <= i < |entries| ==> entries[i].0 in data && entries[i].1 == data[entries[i].0]
      ensures forall i, j :: 0 <= i < j < |entries| ==> entries[i].0 < entries[j].0
    {
      var remaining := data.Keys;
      entries := [];
      while remaining != {}
        invariant Listing(data, entries, remaining)
        decreases |remaining|
      {
        ghost var smallest := LeastKey(remaining);
        var least :| least in remaining && forall key :: key in remaining ==> least <= key;
        ListingStep(data, entries, remaining, least);
        entries := entries + [(least, data[least])];
        remaining := remaining - {least};
      }
    }
  }
}
