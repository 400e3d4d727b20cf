/**
 * The progress record behind `useThrottleRequests`: the snapshot type, the
 * update applied after each settled request, and the reducer that handles
 * `initialise`, `requestSuccess` and `requestFailed` actions.
 */
module Throttle {
  import opened Js
  import Seqs

  /** The default for `maxParallelRequests` in `throttleRequests` and `queueRequests`. */
  const DefaultMaxParallel: int := 6

  /** ThrottledProgress: the snapshot the UI renders. */
  datatype Progress<V, E> = Progress(
    totalRequests: nat,
    errors: seq<Value<E>>,
    values: seq<Value<V>>,
    percentageLoaded: int,
    loading: bool)

  /** The `AsyncState` passed to the update; a field the caller leaves out is `undefined`. */
  datatype AsyncState<V, E> = AsyncState(value: Value<V>, error: Value<E>)

  datatype Action<V, E> =
    | Initialise(totalRequests: nat)
    | RequestSuccess(value: Value<V>)
    | RequestFailed(error: Value<E>)

  /** How many requests the snapshot has recorded as settled. */
  function Settled<V, E>(p: Progress<V, E>): nat {
    |p.errors| + |p.values|
  }

  /** The percentage shown for `settled` of `total` requests: 0 for an empty batch. */
  function Percentage(settled: nat, total: nat): int {
    if total == 0 then 0 else RoundRatio(100 * settled, total)
  }

  /** The derived fields agree with the recorded counts. */
  predicate Consistent<V, E>(p: Progress<V, E>) {
    && p.percentageLoaded == Percentage(Settled(p), p.totalRequests)
    && p.loading == (p.totalRequests != 0 && Settled(p) < p.totalRequests)
  }

  /** createThrottledProgress: nothing recorded, not loading. */
  function Create<V, E>(totalRequests: nat): (p: Progress<V, E>)
    ensures p.totalRequests == totalRequests && Settled(p) == 0
    ensures p.percentageLoaded == 0 && !p.loading
  {
    Progress(totalRequests, [], [], 0, false)
  }

  /**
   * updateThrottledProgress: a truthy error and a truthy value are each
   * appended; the percentage and the loading flag are recomputed from the new
   * counts.
   */
  function Update<V, E>(p: Progress<V, E>, d: AsyncState<V, E>): (r: Progress<V, E>)
    ensures r.totalRequests == p.totalRequests
    ensures r.errors == p.errors + (if Truthy(d.error) then [d.error] else [])
    ensures r.values == p.values + (if Truthy(d.value) then [d.value] else [])
    ensures Consistent(r)
  {
    var errors := if Truthy(d.error) then p.errors + [d.error] else p.errors;
    var values := if Truthy(d.value) then p.values + [d.value] else p.values;
    var settled := |errors| + |values|;
    var percentageLoaded := if p.totalRequests == 0 then 0 else RoundRatio(100 * settled, p.totalRequests);
    var loading := if p.totalRequests == 0 then false else settled < p.totalRequests;
    Progress(p.totalRequests, errors, values, percentageLoaded, loading)
  }

  /** The reducer of `useThrottleRequests`. */
  function Reduce<V, E>(p: Progress<V, E>, a: Action<V, E>): (r: Progress<V, E>)
    ensures a.Initialise? ==> r.totalRequests == a.totalRequests && Settled(r) == 0 && r.percentageLoaded == 0 && !r.loading
    ensures !a.Initialise? ==> r.totalRequests == p.totalRequests && Consistent(r)
    ensures a.RequestSuccess? ==> r.errors == p.errors && r.values == p.values + (if Truthy(a.value) then [a.value] else [])
    ensures a.RequestFailed? ==> r.values == p.values && r.errors == p.errors + (if Truthy(a.error) then [a.error] else [])
  {
    match a
    case Initialise(n) => Create(n)
    case RequestSuccess(v) => Update(p, AsyncState(v, Undefined))
    case RequestFailed(e) => Update(p, AsyncState(Undefined, e))
  }

  /**
   * After a step the snapshot is consistent unless the step was an
   * `initialise` of a non-empty batch, which reports `loading == false` although
   * nothing has settled.
   */
  lemma ReduceConsistent<V, E>(p: Progress<V, E>, a: Action<V, E>)
    ensures Consistent(Reduce(p, a)) <==> !(a.Initialise? && a.totalRequests > 0)
  {
    if a.Initialise? && a.totalRequests > 0 {
      assert Settled(Reduce(p, a)) < a.totalRequests;
    }
  }

  /** With no more settled than submitted the percentage lies in [0, 100], and is 100 when all have settled. */
  lemma PercentageBounds(settled: nat, total: nat)
    requires settled <= total
    ensures 0 <= Percentage(settled, total) <= 100
    ensures 0 < total && settled == total ==> Percentage(settled, total) == 100
  {
    if total != 0 {
      var r := RoundRatio(100 * settled, total);
      assert 2 * total * r <= 200 * settled + total < 2 * total * (r + 1);
      if r > 100 {
        MulMonotone(2 * total, 101, r);
      }
      if r < 0 {
        MulMonotone(2 * total, r + 1, 0);
      }
      if settled == total && r < 100 {
        MulMonotone(2 * total, r + 1, 100);
      }
    }
  }

  /** More settled requests never show a smaller percentage. */
  lemma PercentageMonotone(k1: nat, k2: nat, total: nat)
    requires k1 <= k2
    ensures Percentage(k1, total) <= Percentage(k2, total)
  {
    if total != 0 {
      var r1, r2 := RoundRatio(100 * k1, total), RoundRatio(100 * k2, total);
      assert (2 * total) * r1 < (2 * total) * (r2 + 1);
      if r2 < r1 {
        MulMonotone(2 * total, r2 + 1, r1);
      }
    }
  }

  lemma MulMonotone(a: nat, x: int, y: int)
    requires x <= y
    ensures a * x <= a * y
  {
  }

  /** The rounding shows 100 while one request of a thousand is still loading. */
  lemma RoundedFullWhileLoading()
    ensures Percentage(999, 1000) == 100
  {
  }

  /** A settlement adds nothing to the percentage when a thousand requests are queued and one more settles. */
  lemma SettlementWithoutVisibleProgress()
    ensures Percentage(1, 1000) == Percentage(0, 1000)
  {
  }

  /** The snapshot after a sequence of actions, applied in order. */
  function Apply<V, E>(p: Progress<V, E>, acts: seq<Action<V, E>>): Progress<V, E>
    decreases |acts|
  {
    if |acts| == 0 then p else Reduce(Apply(p, acts[..|acts| - 1]), acts[|acts| - 1])
  }

  predicate IsInitialise<V, E>(a: Action<V, E>) {
    a.Initialise?
  }

  /** The values a sequence of actions contributes. */
  function SuccessValues<V, E>(acts: seq<Action<V, E>>): seq<Value<V>>
    decreases |acts|
  {
    if |acts| == 0 then []
    else
      var a := acts[|acts| - 1];
      SuccessValues(acts[..|acts| - 1]) + (if a.RequestSuccess? && Truthy(a.value) then [a.value] else [])
  }

  /** The errors a sequence of actions contributes. */
  function FailureErrors<V, E>(acts: seq<Action<V, E>>): seq<Value<E>>
    decreases |acts|
  {
    if |acts| == 0 then []
    else
      var a := acts[|acts| - 1];
      FailureErrors(acts[..|acts| - 1]) + (if a.RequestFailed? && Truthy(a.error) then [a.error] else [])
  }

  /**
   * Within one batch (no `initialise` among the actions) the snapshot only
   * grows: values and errors are the old ones followed by the truthy payloads
   * in dispatch order, and the total is kept. After at least one action the
   * derived fields are consistent again.
   */
  lemma {:induction false} ApplyWithinBatch<V, E>(p: Progress<V, E>, acts: seq<Action<V, E>>)
    requires forall i :: 0 <= i < |acts| ==> !acts[i].Initialise?
    ensures Apply(p, acts).totalRequests == p.totalRequests
    ensures Apply(p, acts).values == p.values + SuccessValues(acts)
    ensures Apply(p, acts).errors == p.errors + FailureErrors(acts)
    ensures 0 < |acts| ==> Consistent(Apply(p, acts))
    decreases |acts|
  {
    if |acts| != 0 {
      ApplyWithinBatch(p, acts[..|acts| - 1]);
    }
  }

  /** Within one batch, starting from a consistent snapshot, the percentage never drops. */
  lemma ApplyMonotone<V, E>(p: Progress<V, E>, acts: seq<Action<V, E>>)
    requires Consistent(p)
    requires forall i :: 0 <= i < |acts| ==> !acts[i].Initialise?
    ensures Apply(p, acts).percentageLoaded >= p.percentageLoaded
  {
    ApplyWithinBatch(p, acts);
    if |acts| != 0 {
      PercentageMonotone(Settled(p), Settled(Apply(p, acts)), p.totalRequests);
    }
  }

  /**
   * A batch of n requests where every request dispatches exactly one action
   * with a truthy payload ends with n settled, not loading, and the
   * percentage at 100 (0 for an empty batch).
   */
  lemma BatchCompletes<V, E>(p: Progress<V, E>, n: nat, acts: seq<Action<V, E>>)
    requires |acts| == n
    requires forall i :: 0 <= i < n ==> (acts[i].RequestSuccess? && Truthy(acts[i].value)) || (acts[i].RequestFailed? && Truthy(acts[i].error))
    ensures Settled(Apply(p, [Initialise(n)] + acts)) == n
    ensures !Apply(p, [Initialise(n)] + acts).loading
    ensures Apply(p, [Initialise(n)] + acts).percentageLoaded == (if n == 0 then 0 else 100)
  {
    var start: Progress<V, E> := Create(n);
    ApplyFrom(p, Initialise(n), acts);
    assert Reduce(p, Initialise(n)) == start;
    var r := Apply(start, acts);
    ApplyWithinBatch(start, acts);
    CountTruthy(acts);
    assert Settled(r) == n;
    if n != 0 {
      PercentageBounds(n, n);
    }
  }

  /** Every action of this shape contributes exactly one value or one error. */
  lemma {:induction false} CountTruthy<V, E>(acts: seq<Action<V, E>>)
    requires forall i :: 0 <= i < |acts| ==> (acts[i].RequestSuccess? && Truthy(acts[i].value)) || (acts[i].RequestFailed? && Truthy(acts[i].error))
    ensures |SuccessValues(acts)| + |FailureErrors(acts)| == |acts|
    decreases |acts|
  {
    if |acts| != 0 {
      CountTruthy(acts[..|acts| - 1]);
    }
  }

  /** Applying a + b is applying a, then b. */
  lemma {:induction false} ApplySplit<V, E>(p: Progress<V, E>, a: seq<Action<V, E>>, b: seq<Action<V, E>>)
    ensures Apply(p, a + b) == Apply(Apply(p, a), b)
    decreases |b|
  {
    if |b| == 0 {
      assert a + b == a;
    } else {
      assert (a + b)[..|a + b| - 1] == a + b[..|b| - 1];
      ApplySplit(p, a, b[..|b| - 1]);
    }
  }

  lemma ApplyFrom<V, E>(p: Progress<V, E>, a: Action<V, E>, acts: seq<Action<V, E>>)
    ensures Apply(p, [a] + acts) == Apply(Reduce(p, a), acts)
  {
    ApplySplit(p, [a], acts);
    assert Apply(p, [a]) == Reduce(Apply(p, []), a);
  }

  /** The contributions of a + b are those of a followed by those of b. */
  lemma {:induction false} ContributionsConcat<V, E>(a: seq<Action<V, E>>, b: seq<Action<V, E>>)
    ensures SuccessValues(a + b) == SuccessValues(a) + SuccessValues(b)
    ensures FailureErrors(a + b) == FailureErrors(a) + FailureErrors(b)
    decreases |b|
  {
    if |b| == 0 {
      assert a + b == a;
    } else {
      assert (a + b)[..|a + b| - 1] == a + b[..|b| - 1];
      ContributionsConcat(a, b[..|b| - 1]);
    }
  }
}
