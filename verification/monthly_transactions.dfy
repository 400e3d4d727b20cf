/**
 * The task bodies `useTransactions` hands to the throttle in
 * MonthlyTransactions.tsx, and the newest-first order of the rendered rows.
 */
module MonthlyTransactions {
  import opened Wrappers
  import opened Js
  import Throttle
  import ThrottleScheduler
  import Sorting
  import Seqs

  /** `new Date('2022-01-12T07:12:38')` as Unix seconds, reading the date as UTC. */
  const FirstDateWithPrice: int := 1641971558

  /** A reward transaction as the UI holds it; `time` in Unix seconds. */
  datatype Tx = Tx(hash: string, time: int, poktPrice: Option<real>)

  /** What `getPoktPrice(tx)` did: returned a price, or threw. */
  datatype Lookup<E> = Priced(price: real) | Threw(error: Value<E>)

  /** The actions one task dispatched, and whether its promise fulfilled. */
  datatype TaskResult<E> = TaskResult(dispatched: seq<Throttle.Action<Tx, E>>, fulfilled: bool)

  predicate PriceRequested(tx: Tx) {
    tx.time >= FirstDateWithPrice
  }

  /**
   * One task: after the one-second wait, a transaction at or after the first
   * priced date gets its price looked up. A throw is caught and dispatched as
   * a failure; the transaction is then dispatched as a success in every case.
   */
  function RunTask<E>(tx: Tx, lookup: Lookup<E>): (r: TaskResult<E>)
    ensures r.fulfilled
    ensures |r.dispatched| == (if PriceRequested(tx) && lookup.Threw? then 2 else 1)
    ensures |r.dispatched| == 2 ==> r.dispatched[0] == Throttle.RequestFailed(lookup.error)
    ensures var last := r.dispatched[|r.dispatched| - 1];
      && last.RequestSuccess? && last.value.Object?
      && last.value.obj.hash == tx.hash && last.value.obj.time == tx.time
      && last.value.obj.poktPrice == (if PriceRequested(tx) && lookup.Priced? then Some(lookup.price) else tx.poktPrice)
  {
    if PriceRequested(tx) then
      match lookup
      case Priced(price) =>
        TaskResult([Throttle.RequestSuccess(Object(tx.(poktPrice := Some(price))))], true)
      case Threw(e) =>
        TaskResult([Throttle.RequestFailed(e), Throttle.RequestSuccess(Object(tx))], true)
    else
      TaskResult([Throttle.RequestSuccess(Object(tx))], true)
  }

  /** A task whose lookup threw a truthy error, which the throttle records. */
  predicate RecordedFailure<E>(task: (Tx, Lookup<E>)) {
    PriceRequested(task.0) && task.1.Threw? && Truthy(task.1.error)
  }

  /** The tasks of a list: one per transaction, in input order. */
  function Tasks<E>(txs: seq<Tx>, lookups: seq<Lookup<E>>): (tasks: seq<(Tx, Lookup<E>)>)
    requires |lookups| == |txs|
    ensures |tasks| == |txs|
    ensures forall i :: 0 <= i < |txs| ==> tasks[i] == (txs[i], lookups[i])
  {
    seq(|txs|, i requires 0 <= i < |txs| => (txs[i], lookups[i]))
  }

  /**
   * Everything dispatched when the tasks finish in the order given: each
   * task's dispatches are synchronous with one another, so they arrive as one
   * block.
   */
  function Dispatches<E>(finished: seq<(Tx, Lookup<E>)>): seq<Throttle.Action<Tx, E>>
    decreases |finished|
  {
    if |finished| == 0 then []
    else
      var t := finished[|finished| - 1];
      Dispatches(finished[..|finished| - 1]) + RunTask(t.0, t.1).dispatched
  }

  /** Every finished task contributes one value, and one error iff its lookup threw a truthy error. */
  lemma {:induction false} DispatchContributions<E>(finished: seq<(Tx, Lookup<E>)>)
    ensures |Throttle.SuccessValues(Dispatches(finished))| == |finished|
    ensures |Throttle.FailureErrors(Dispatches(finished))| == Seqs.Count(finished, RecordedFailure)
    ensures forall i :: 0 <= i < |Dispatches(finished)| ==> !Dispatches(finished)[i].Initialise?
    decreases |finished|
  {
    if |finished| != 0 {
      var init := finished[..|finished| - 1];
      var t := finished[|finished| - 1];
      var block := RunTask(t.0, t.1).dispatched;
      DispatchContributions(init);
      Throttle.ContributionsConcat(Dispatches(init), block);
      TaskContribution(t.0, t.1);
      assert Dispatches(finished) == Dispatches(init) + block;
      forall i | 0 <= i < |Dispatches(finished)| ensures !Dispatches(finished)[i].Initialise? {
        if i >= |Dispatches(init)| {
          assert Dispatches(finished)[i] == block[i - |Dispatches(init)|];
        }
      }
    }
  }

  /** One task's block contributes one value, and one error iff its lookup threw a truthy error. */
  lemma TaskContribution<E>(tx: Tx, lookup: Lookup<E>)
    ensures var block := RunTask(tx, lookup).dispatched;
      && |Throttle.SuccessValues(block)| == 1
      && |Throttle.FailureErrors(block)| == (if RecordedFailure((tx, lookup)) then 1 else 0)
      && forall i :: 0 <= i < |block| ==> !block[i].Initialise?
  {
    var block := RunTask(tx, lookup).dispatched;
    if |block| == 2 {
      var first := block[..1];
      assert first[..0] == [] && first[0] == block[0];
      assert Throttle.FailureErrors(first) == (if lookup.Threw? && Truthy(lookup.error) then [lookup.error] else []);
      assert Throttle.SuccessValues(first) == [];
      assert Throttle.FailureErrors(block) == Throttle.FailureErrors(first);
    } else {
      assert block[..0] == [];
    }
  }

  /**
   * After `queueRequests` and every task finishing, in any order, the
   * snapshot holds one value per transaction and one error per truthy lookup
   * failure: |values| + |errors| exceeds totalRequests by the number of
   * recorded failures.
   */
  lemma BatchOutcome<E>(p: Throttle.Progress<Tx, E>, txs: seq<Tx>, lookups: seq<Lookup<E>>, finished: seq<(Tx, Lookup<E>)>)
    requires |lookups| == |txs|
    requires multiset(finished) == multiset(Tasks(txs, lookups))
    ensures var r := Throttle.Apply(p, [Throttle.Initialise(|txs|)] + Dispatches(finished));
      && r.totalRequests == |txs|
      && |r.values| == |txs|
      && |r.errors| == Seqs.Count(Tasks(txs, lookups), RecordedFailure)
      && Throttle.Settled(r) == |txs| + Seqs.Count(Tasks(txs, lookups), RecordedFailure)
  {
    var d := Dispatches(finished);
    assert |finished| == |multiset(finished)| == |Tasks(txs, lookups)|;
    Throttle.ApplyFrom(p, Throttle.Initialise(|txs|), d);
    DispatchContributions(finished);
    Throttle.ApplyWithinBatch(Throttle.Create(|txs|), d);
    Seqs.CountPermutation(finished, Tasks(txs, lookups), RecordedFailure);
  }

  /** Request index i runs the task of the i-th transaction. */
  function TaskMap<E>(txs: seq<Tx>, lookups: seq<Lookup<E>>): (m: map<nat, (Tx, Lookup<E>)>)
    requires |lookups| == |txs|
    ensures forall i: nat :: i in m <==> i < |txs|
  {
    map i: nat | i < |txs| :: (txs[i], lookups[i])
  }

  function SameTask<E>(t: (Tx, Lookup<E>)): (Tx, Lookup<E>) {
    t
  }

  /** The tasks in the order the scheduler's settle events fulfil their requests. */
  function FinishedTasks<E>(txs: seq<Tx>, lookups: seq<Lookup<E>>, events: seq<ThrottleScheduler.Event>): (finished: seq<(Tx, Lookup<E>)>)
    requires |lookups| == |txs|
    requires forall k :: k in ThrottleScheduler.FulfilOrder(events) ==> k < |txs|
    ensures |finished| == |ThrottleScheduler.FulfilOrder(events)|
  {
    Seqs.MapValues(TaskMap(txs, lookups), ThrottleScheduler.FulfilOrder(events), SameTask)
  }

  /**
   * `queueRequests` over the tasks, in any run of `throttleRequests` that
   * resolves: each task finishes exactly once, in the order the run fulfils
   * them, and the snapshot ends as BatchOutcome describes.
   */
  lemma ResolvedBatchOutcome<E>(p: Throttle.Progress<Tx, E>, txs: seq<Tx>, lookups: seq<Lookup<E>>, events: seq<ThrottleScheduler.Event>)
    requires |lookups| == |txs|
    requires ThrottleScheduler.Run(|txs|, Throttle.DefaultMaxParallel, events).Some?
    requires ThrottleScheduler.Run(|txs|, Throttle.DefaultMaxParallel, events).value.phase == ThrottleScheduler.Resolved
    ensures forall k :: k in ThrottleScheduler.FulfilOrder(events) ==> k < |txs|
    ensures multiset(FinishedTasks(txs, lookups, events)) == multiset(Tasks(txs, lookups))
    ensures var r := Throttle.Apply(p, [Throttle.Initialise(|txs|)] + Dispatches(FinishedTasks(txs, lookups, events)));
      && r.totalRequests == |txs|
      && |r.values| == |txs|
      && |r.errors| == Seqs.Count(Tasks(txs, lookups), RecordedFailure)
      && Throttle.Settled(r) == |txs| + Seqs.Count(Tasks(txs, lookups), RecordedFailure)
  {
    var order := ThrottleScheduler.FulfilOrder(events);
    ThrottleScheduler.ResolvedFulfilsEachOnce(|txs|, Throttle.DefaultMaxParallel, events);
    FinishedPermutesTasks(txs, lookups, order);
    BatchOutcome(p, txs, lookups, FinishedTasks(txs, lookups, events));
  }

  /** Tasks looked up along a permutation of the request indices are a permutation of the tasks. */
  lemma FinishedPermutesTasks<E>(txs: seq<Tx>, lookups: seq<Lookup<E>>, order: seq<nat>)
    requires |lookups| == |txs|
    requires multiset(order) == multiset(ThrottleScheduler.Requests(|txs|))
    ensures forall k :: k in order ==> k in TaskMap(txs, lookups)
    ensures multiset(Seqs.MapValues(TaskMap(txs, lookups), order, SameTask)) == multiset(Tasks(txs, lookups))
  {
    var m, all := TaskMap(txs, lookups), ThrottleScheduler.Requests(|txs|);
    forall k | k in order ensures k in m {
      assert k in multiset(all);
    }
    TasksInRequestOrder(txs, lookups);
    Seqs.MapValuesPermute(m, order, all, SameTask);
  }

  /** Looking the tasks up in request order gives the tasks. */
  lemma TasksInRequestOrder<E>(txs: seq<Tx>, lookups: seq<Lookup<E>>)
    requires |lookups| == |txs|
    ensures forall k :: k in ThrottleScheduler.Requests(|txs|) ==> k in TaskMap(txs, lookups)
    ensures Seqs.MapValues(TaskMap(txs, lookups), ThrottleScheduler.Requests(|txs|), SameTask) == Tasks(txs, lookups)
  {
    var all := ThrottleScheduler.Requests(|txs|);
    assert forall k :: k in all ==> k < |txs|;
  }

  /**
   * One transaction after the first priced date whose lookup throws: the
   * snapshot records two settlements for one request, shows 200 percent, and
   * is not loading.
   */
  lemma FailedLookupOvercounts(p: Throttle.Progress<Tx, string>)
    ensures var tx := Tx("h", FirstDateWithPrice, None);
      var r := Throttle.Apply(p, [Throttle.Initialise(1)] + Dispatches([(tx, Threw(Str("timeout")))]));
      && r.totalRequests == 1 && Throttle.Settled(r) == 2 && r.percentageLoaded == 200 && !r.loading
  {
    var tx := Tx("h", FirstDateWithPrice, None);
    var lookups: seq<Lookup<string>> := [Threw(Str("timeout"))];
    var finished := [(tx, lookups[0])];
    var tasks := Tasks([tx], lookups);
    assert tasks == finished;
    BatchOutcome(p, [tx], lookups, finished);
    assert Seqs.Count(tasks, RecordedFailure) == 1 by {
      assert finished[..0] == [];
    }
  }

  /**
   * The tasks never reject, so in any run of the scheduler over them, with
   * each settlement carrying its task's outcome, `throttleRequests` does not
   * reject.
   */
  lemma BatchNeverRejects<E>(txs: seq<Tx>, lookups: seq<Lookup<E>>, events: seq<ThrottleScheduler.Event>)
    requires |lookups| == |txs|
    requires forall i :: 0 <= i < |events| && events[i].Settle? ==>
      events[i].request < |txs| && events[i].ok == RunTask(txs[events[i].request], lookups[events[i].request]).fulfilled
    requires ThrottleScheduler.Run(|txs|, Throttle.DefaultMaxParallel, events).Some?
    ensures ThrottleScheduler.Run(|txs|, Throttle.DefaultMaxParallel, events).value.phase != ThrottleScheduler.Rejected
    ensures |ThrottleScheduler.Run(|txs|, Throttle.DefaultMaxParallel, events).value.inFlight| <= 6
  {
    ThrottleScheduler.RejectedMeansFailure(|txs|, Throttle.DefaultMaxParallel, events);
    ThrottleScheduler.InFlightBound(|txs|, Throttle.DefaultMaxParallel, events);
  }

  /**
   * `queueRequests` resolves once all tasks finish: a run of the scheduler over
   * the tasks that can go no further has resolved, and no run is longer than
   * 2n + 1 events, so every run gets there.
   */
  lemma BatchResolves<E>(txs: seq<Tx>, lookups: seq<Lookup<E>>, events: seq<ThrottleScheduler.Event>)
    requires |lookups| == |txs|
    requires forall i :: 0 <= i < |events| && events[i].Settle? ==>
      events[i].request < |txs| && events[i].ok == RunTask(txs[events[i].request], lookups[events[i].request]).fulfilled
    requires ThrottleScheduler.Run(|txs|, Throttle.DefaultMaxParallel, events).Some?
    requires ThrottleScheduler.Terminal(ThrottleScheduler.Run(|txs|, Throttle.DefaultMaxParallel, events).value)
    ensures ThrottleScheduler.Run(|txs|, Throttle.DefaultMaxParallel, events).value.phase == ThrottleScheduler.Resolved
    ensures |events| <= 2 * |txs| + 1
  {
    assert !ThrottleScheduler.HasFailure(events);
    ThrottleScheduler.TerminalOutcome(|txs|, Throttle.DefaultMaxParallel, events);
    ThrottleScheduler.TraceBound(|txs|, Throttle.DefaultMaxParallel, events);
  }

  /** The sort key: a value's transaction time (every dispatched value is a transaction object). */
  function ValueTime(v: Value<Tx>): int {
    if v.Object? then v.obj.time else 0
  }

  /** `throttle.values.sort((a, b) => b.time - a.time)`: the rows, newest first. */
  function NewestFirst(values: seq<Value<Tx>>): (rows: seq<Value<Tx>>)
    ensures multiset(rows) == multiset(values)
    ensures forall i, j :: 0 <= i < j < |rows| ==> ValueTime(rows[i]) >= ValueTime(rows[j])
  {
    Sorting.SortDesc(values, ValueTime)
  }

  /**
   * The sort runs in place on the throttle's own `values` array, and later
   * successes copy that sorted array and append to it. Sorting it again then
   * shows the same rows as sorting the values in dispatch order, because
   * `Array.prototype.sort` is stable.
   */
  lemma InPlaceSortInvisible(values: seq<Value<Tx>>, later: seq<Value<Tx>>)
    ensures NewestFirst(NewestFirst(values) + later) == NewestFirst(values + later)
  {
    Sorting.ResortAfterAppend(values, later, ValueTime);
  }
}
