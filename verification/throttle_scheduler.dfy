/**
 * `throttleRequests(requestsToMake, maxParallelRequests)` as a state machine.
 *
 * Requests are numbered 0 .. n-1 in array order. The function's own steps are
 * `Advance` events (start the next request, or leave the loop); the
 * environment contributes `Settle` events, one per request settling, which
 * may arrive whenever the function is suspended. A fulfilled request removes
 * itself from the in-flight queue; a rejected one stays there, so the next
 * `Promise.race` or `Promise.all` over the queue rejects.
 */
module ThrottleScheduler {
  import opened Wrappers
  import Seqs

  datatype Phase =
    | Looping   // running the for-loop body, or about to resume it
    | Racing    // suspended in `await Promise.race(queue)`
    | Draining  // suspended in `await Promise.all(queue)`
    | Resolved  // the returned promise fulfilled
    | Rejected  // the returned promise rejected

  datatype Scheduler = Scheduler(
    next: nat,            // requests 0 .. next-1 have been started
    inFlight: seq<nat>,   // the queue: started and not fulfilled, in start order
    fulfilled: set<nat>,
    failed: set<nat>,     // rejected requests, still in the queue
    phase: Phase)

  datatype Event = Advance | Settle(request: nat, ok: bool)

  const Start: Scheduler := Scheduler(0, [], {}, {}, Looping)

  /** The number of requests that may be in flight: a limit below 1 still lets one run. */
  function Limit(maxParallel: int): (l: nat)
    ensures l >= 1 && l >= maxParallel
  {
    if maxParallel < 1 then 1 else maxParallel
  }

  predicate Suspended(p: Phase) {
    p == Looping || p == Racing || p == Draining
  }

  predicate Enabled(s: Scheduler, e: Event) {
    match e
    case Advance => s.phase == Looping
    case Settle(q, _) => Suspended(s.phase) && q in s.inFlight && q !in s.failed
  }

  /** The phase reached by awaiting a race (`Racing`) or an all (`Draining`) over the queue. */
  function Await(s: Scheduler, target: Phase): Phase {
    if s.failed != {} then Rejected
    else if target == Draining && |s.inFlight| == 0 then Resolved
    else target
  }

  /** One step of `throttleRequests` with `n` requests and the given limit. */
  function Step(n: nat, maxParallel: int, s: Scheduler, e: Event): Scheduler
    requires Enabled(s, e)
  {
    match e
    case Advance =>
      if s.next < n then
        var t := s.(next := s.next + 1, inFlight := s.inFlight + [s.next]);
        if |t.inFlight| >= maxParallel then t.(phase := Await(t, Racing)) else t
      else
        s.(phase := Await(s, Draining))
    case Settle(q, true) =>
      var t := s.(inFlight := Seqs.RemoveFirst(s.inFlight, q), fulfilled := s.fulfilled + {q});
      if s.phase == Racing then t.(phase := Looping)
      else if s.phase == Draining && |t.inFlight| == 0 then t.(phase := Resolved)
      else t
    case Settle(q, false) =>
      var t := s.(failed := s.failed + {q});
      if s.phase == Looping then t else t.(phase := Rejected)
  }

  /** The state after a trace of events, or None if some event was not enabled. */
  function Run(n: nat, maxParallel: int, events: seq<Event>): Option<Scheduler>
    decreases |events|
  {
    if |events| == 0 then Some(Start)
    else
      match Run(n, maxParallel, events[..|events| - 1])
      case None => None
      case Some(s) =>
        var e := events[|events| - 1];
        if Enabled(s, e) then Some(Step(n, maxParallel, s, e)) else None
  }

  predicate Increasing(q: seq<nat>) {
    forall i, j :: 0 <= i < j < |q| ==> q[i] < q[j]
  }

  /** What holds of every reachable state. */
  predicate Inv(n: nat, maxParallel: int, s: Scheduler) {
    && s.next <= n
    && Increasing(s.inFlight)
    && (forall i :: 0 <= i < |s.inFlight| ==> s.inFlight[i] < s.next && s.inFlight[i] !in s.fulfilled)
    && (forall k :: k in s.fulfilled ==> k < s.next)
    && (forall k :: 0 <= k < s.next ==> k in s.fulfilled || k in s.inFlight)
    && (forall k :: k in s.failed ==> k in s.inFlight)
    && |s.inFlight| <= Limit(maxParallel)
    && (s.phase == Looping ==> |s.inFlight| < Limit(maxParallel))
    && (s.phase == Racing ==> s.failed == {} && |s.inFlight| > 0)
    && (s.phase == Draining ==> s.next == n && s.failed == {} && |s.inFlight| > 0)
    && (s.phase == Resolved ==> s.next == n && s.inFlight == [] && s.failed == {})
    && (s.phase == Rejected ==> s.failed != {})
  }

  /** Removing one element keeps a queue increasing and drops exactly that element. */
  lemma {:induction false} RemoveIncreasing(q: seq<nat>, x: nat)
    requires Increasing(q)
    ensures Increasing(Seqs.RemoveFirst(q, x))
    ensures forall y :: y in Seqs.RemoveFirst(q, x) <==> y in q && y != x
    decreases |q|
  {
    if |q| != 0 {
      TailAbove(q);
      if q[0] != x {
        RemoveIncreasing(q[1..], x);
        RemoveIncreasingStep(q, x);
      } else {
        assert q == [q[0]] + q[1..];
      }
    }
  }

  /** An increasing queue's tail is increasing and lies above its head. */
  lemma TailAbove(q: seq<nat>)
    requires Increasing(q) && 0 < |q|
    ensures Increasing(q[1..])
    ensures forall y :: y in q[1..] ==> q[0] < y
  {
  }

  lemma RemoveIncreasingStep(q: seq<nat>, x: nat)
    requires 0 < |q| && q[0] != x
    requires Increasing(q[1..]) && forall y :: y in q[1..] ==> q[0] < y
    requires Increasing(Seqs.RemoveFirst(q[1..], x))
    requires forall y :: y in Seqs.RemoveFirst(q[1..], x) <==> y in q[1..] && y != x
    ensures Increasing(Seqs.RemoveFirst(q, x))
    ensures forall y :: y in Seqs.RemoveFirst(q, x) <==> y in q && y != x
  {
    var r := Seqs.RemoveFirst(q[1..], x);
    assert Seqs.RemoveFirst(q, x) == [q[0]] + r;
    assert q == [q[0]] + q[1..];
    ConsIncreasing(q[0], r, q[1..], x);
  }

  lemma ConsIncreasing(h: nat, r: seq<nat>, tail: seq<nat>, x: nat)
    requires Increasing(r) && h != x
    requires forall y :: y in r <==> y in tail && y != x
    requires forall y :: y in tail ==> h < y
    ensures Increasing([h] + r)
    ensures forall y :: y in [h] + r <==> y in [h] + tail && y != x
  {
    assert forall i :: 0 <= i < |r| ==> r[i] in tail;
  }

  lemma StepInv(n: nat, maxParallel: int, s: Scheduler, e: Event)
    requires Inv(n, maxParallel, s) && Enabled(s, e)
    ensures Inv(n, maxParallel, Step(n, maxParallel, s, e))
    ensures Step(n, maxParallel, s, e).failed == s.failed + (if e.Settle? && !e.ok then {e.request} else {})
  {
    match e
    case Advance =>
      AdvanceInv(n, maxParallel, s);
    case Settle(q, true) =>
      FulfilInv(n, maxParallel, s, q);
    case Settle(q, false) =>
  }

  lemma AdvanceInv(n: nat, maxParallel: int, s: Scheduler)
    requires Inv(n, maxParallel, s) && s.phase == Looping
    ensures Inv(n, maxParallel, Step(n, maxParallel, s, Advance))
  {
    if s.next < n {
      StartInv(n, maxParallel, s);
    }
  }

  /** Starting the next request appends it to the queue above everything already there. */
  lemma StartInv(n: nat, maxParallel: int, s: Scheduler)
    requires Inv(n, maxParallel, s) && s.phase == Looping && s.next < n
    ensures Inv(n, maxParallel, Step(n, maxParallel, s, Advance))
  {
    var q := s.inFlight + [s.next];
    var t := s.(next := s.next + 1, inFlight := q);
    StartQueue(n, maxParallel, s, t);
    assert Step(n, maxParallel, s, Advance) == if |q| >= maxParallel then t.(phase := Await(t, Racing)) else t;
  }

  /** The queue after starting the next request: still increasing, covering every started request. */
  lemma StartQueue(n: nat, maxParallel: int, s: Scheduler, t: Scheduler)
    requires Inv(n, maxParallel, s) && s.phase == Looping && s.next < n
    requires t == s.(next := s.next + 1, inFlight := s.inFlight + [s.next])
    ensures Increasing(t.inFlight) && 0 < |t.inFlight| <= Limit(maxParallel)
    ensures forall i :: 0 <= i < |t.inFlight| ==> t.inFlight[i] < t.next && t.inFlight[i] !in t.fulfilled
    ensures forall k :: 0 <= k < t.next ==> k in t.fulfilled || k in t.inFlight
    ensures forall k :: k in t.failed ==> k in t.inFlight
  {
    var q := t.inFlight;
    assert forall i :: 0 <= i < |s.inFlight| ==> q[i] == s.inFlight[i];
    assert q[|s.inFlight|] == s.next;
  }

  lemma FulfilInv(n: nat, maxParallel: int, s: Scheduler, q: nat)
    requires Inv(n, maxParallel, s) && Enabled(s, Settle(q, true))
    ensures Inv(n, maxParallel, Step(n, maxParallel, s, Settle(q, true)))
  {
    RemoveIncreasing(s.inFlight, q);
    var r := Seqs.RemoveFirst(s.inFlight, q);
    forall i | 0 <= i < |r|
      ensures r[i] < s.next && r[i] !in s.fulfilled + {q}
    {
      assert r[i] in r;
    }
  }

  /** Every state a trace reaches satisfies the invariant; failures are those the trace reports. */
  lemma {:induction false} RunInv(n: nat, maxParallel: int, events: seq<Event>)
    requires Run(n, maxParallel, events).Some?
    ensures Inv(n, maxParallel, Run(n, maxParallel, events).value)
    ensures Run(n, maxParallel, events).value.failed != {} <==> HasFailure(events)
    decreases |events|
  {
    if |events| != 0 {
      var init, e := events[..|events| - 1], events[|events| - 1];
      RunInv(n, maxParallel, init);
      var s := Run(n, maxParallel, init).value;
      StepInv(n, maxParallel, s, e);
      assert events == init + [e];
      HasFailureSnoc(init, e);
    }
  }

  lemma HasFailureSnoc(init: seq<Event>, e: Event)
    ensures HasFailure(init + [e]) <==> HasFailure(init) || IsFailure(e)
  {
    var t := init + [e];
    if HasFailure(init) {
      var i :| 0 <= i < |init| && IsFailure(init[i]);
      assert t[i] == init[i];
    }
    if IsFailure(e) {
      assert t[|init|] == e;
    }
  }

  predicate IsFailure(e: Event) {
    e.Settle? && !e.ok
  }

  predicate HasFailure(events: seq<Event>) {
    exists i :: 0 <= i < |events| && IsFailure(events[i])
  }

  /**
   * The concurrency bound: at no point are more than max(maxParallel, 1)
   * requests started and unfulfilled; with a limit of 1 or less the requests
   * run one at a time.
   */
  lemma InFlightBound(n: nat, maxParallel: int, events: seq<Event>)
    requires Run(n, maxParallel, events).Some?
    ensures |Run(n, maxParallel, events).value.inFlight| <= Limit(maxParallel)
    ensures maxParallel <= 1 ==> |Run(n, maxParallel, events).value.inFlight| <= 1
  {
    RunInv(n, maxParallel, events);
  }

  /**
   * Requests start in array order: the started requests are exactly 0 .. next-1,
   * each either fulfilled or still queued, and the queue lists them in start order.
   */
  lemma StartOrder(n: nat, maxParallel: int, events: seq<Event>, k: nat)
    requires Run(n, maxParallel, events).Some?
    ensures var s := Run(n, maxParallel, events).value;
      (k < s.next <==> k in s.fulfilled || k in s.inFlight) && Increasing(s.inFlight)
  {
    RunInv(n, maxParallel, events);
  }

  /** The returned promise fulfils only once every request has fulfilled. */
  lemma ResolvedMeansAllFulfilled(n: nat, maxParallel: int, events: seq<Event>)
    requires Run(n, maxParallel, events).Some?
    requires Run(n, maxParallel, events).value.phase == Resolved
    ensures forall k :: 0 <= k < n <==> k in Run(n, maxParallel, events).value.fulfilled
    ensures !HasFailure(events)
  {
    RunInv(n, maxParallel, events);
  }

  /**
   * The returned promise rejects only if some request rejected, and once one
   * has, it can never fulfil.
   */
  lemma RejectedMeansFailure(n: nat, maxParallel: int, events: seq<Event>)
    requires Run(n, maxParallel, events).Some?
    ensures Run(n, maxParallel, events).value.phase == Rejected ==> HasFailure(events)
    ensures HasFailure(events) ==> Run(n, maxParallel, events).value.phase != Resolved
  {
    RunInv(n, maxParallel, events);
  }

  lemma RunAppend(n: nat, maxParallel: int, events: seq<Event>, e: Event)
    requires Run(n, maxParallel, events).Some? && Enabled(Run(n, maxParallel, events).value, e)
    ensures Run(n, maxParallel, events + [e]) == Some(Step(n, maxParallel, Run(n, maxParallel, events).value, e))
  {
    assert (events + [e])[..|events|] == events;
  }

  /** The requests named by the fulfilling settle events of a trace, in settling order. */
  function FulfilOrder(events: seq<Event>): seq<nat>
    decreases |events|
  {
    if |events| == 0 then []
    else
      var e := events[|events| - 1];
      FulfilOrder(events[..|events| - 1]) + (if e.Settle? && e.ok then [e.request] else [])
  }

  /** The request indices 0 .. n-1 in array order. */
  function Requests(n: nat): (r: seq<nat>)
    ensures |r| == n && forall i :: 0 <= i < n ==> r[i] == i
  {
    seq(n, i => i)
  }

  /** Each request index below n occurs once in Requests(n), and no other does. */
  lemma {:induction false} RequestsOnce(n: nat)
    ensures forall k: nat :: multiset(Requests(n))[k] == if k < n then 1 else 0
  {
    if n != 0 {
      RequestsOnce(n - 1);
      var last: nat := n - 1;
      assert Requests(n) == Requests(last) + [last];
      forall k: nat ensures multiset(Requests(n))[k] == if k < n then 1 else 0 {
        assert multiset(Requests(n))[k] == multiset(Requests(last))[k] + multiset([last])[k];
      }
    }
  }

  /** The fulfilling settle events of a trace name each fulfilled request exactly once, and nothing else. */
  lemma {:induction false} FulfilOrderOnce(n: nat, maxParallel: int, events: seq<Event>)
    requires Run(n, maxParallel, events).Some?
    ensures forall k :: multiset(FulfilOrder(events))[k] == if k in Run(n, maxParallel, events).value.fulfilled then 1 else 0
    decreases |events|
  {
    if |events| != 0 {
      var init, e := events[..|events| - 1], events[|events| - 1];
      FulfilOrderOnce(n, maxParallel, init);
      var s := Run(n, maxParallel, init).value;
      RunInv(n, maxParallel, init);
      FulfilOrderStep(n, maxParallel, s, e, FulfilOrder(init));
    }
  }

  lemma FulfilOrderStep(n: nat, maxParallel: int, s: Scheduler, e: Event, order: seq<nat>)
    requires Inv(n, maxParallel, s) && Enabled(s, e)
    requires forall k :: multiset(order)[k] == if k in s.fulfilled then 1 else 0
    ensures var o := order + (if e.Settle? && e.ok then [e.request] else []);
      forall k :: multiset(o)[k] == if k in Step(n, maxParallel, s, e).fulfilled then 1 else 0
  {
    if e.Settle? && e.ok {
      var i :| 0 <= i < |s.inFlight| && s.inFlight[i] == e.request;
      assert e.request !in s.fulfilled;
    }
  }

  /**
   * In a run that resolves, the fulfilling settle events name every request
   * exactly once: they are the requests 0 .. n-1 in some order.
   */
  lemma ResolvedFulfilsEachOnce(n: nat, maxParallel: int, events: seq<Event>)
    requires Run(n, maxParallel, events).Some?
    requires Run(n, maxParallel, events).value.phase == Resolved
    ensures multiset(FulfilOrder(events)) == multiset(Requests(n))
  {
    FulfilOrderOnce(n, maxParallel, events);
    ResolvedMeansAllFulfilled(n, maxParallel, events);
    RequestsOnce(n);
  }

  /**
   * No reachable state is stuck: the function has either settled, or it can
   * take its own next step, or the oldest queued request can still fulfil.
   */
  lemma NoDeadlock(n: nat, maxParallel: int, events: seq<Event>)
    requires Run(n, maxParallel, events).Some?
    ensures var s := Run(n, maxParallel, events).value;
      || s.phase == Resolved || s.phase == Rejected
      || Enabled(s, Advance)
      || (0 < |s.inFlight| && Enabled(s, Settle(s.inFlight[0], true)))
  {
    RunInv(n, maxParallel, events);
  }

  /** A state in which neither the function nor any request can take a step. */
  ghost predicate Terminal(s: Scheduler) {
    && !Enabled(s, Advance)
    && forall q: nat, ok: bool :: !Enabled(s, Settle(q, ok))
  }

  /**
   * Once nothing more can happen, the returned promise has settled: it
   * fulfilled exactly when no request rejected, and rejected exactly when one did.
   */
  lemma TerminalOutcome(n: nat, maxParallel: int, events: seq<Event>)
    requires Run(n, maxParallel, events).Some?
    requires Terminal(Run(n, maxParallel, events).value)
    ensures Run(n, maxParallel, events).value.phase == Resolved <==> !HasFailure(events)
    ensures Run(n, maxParallel, events).value.phase == Rejected <==> HasFailure(events)
  {
    var s := Run(n, maxParallel, events).value;
    NoDeadlock(n, maxParallel, events);
    if 0 < |s.inFlight| {
      assert !Enabled(s, Settle(s.inFlight[0], true));
    }
    RejectedMeansFailure(n, maxParallel, events);
    if s.phase == Resolved {
      ResolvedMeansAllFulfilled(n, maxParallel, events);
    }
  }

  /**
   * What is left to happen: requests not yet started, requests not yet
   * settled, and the loop itself until it is left.
   */
  function Potential(n: nat, s: Scheduler): int {
    (n - s.next) + (n - |s.fulfilled| - |s.failed|) + (if s.phase == Looping || s.phase == Racing then 1 else 0)
  }

  /** Every step uses up some of what is left. */
  lemma StepPotential(n: nat, maxParallel: int, s: Scheduler, e: Event)
    requires Enabled(s, e)
    requires e.Settle? ==> e.request !in s.fulfilled
    ensures Potential(n, Step(n, maxParallel, s, e)) < Potential(n, s)
  {
    match e
    case Advance =>
    case Settle(q, true) =>
      assert |s.fulfilled + {q}| == |s.fulfilled| + 1;
    case Settle(q, false) =>
      assert |s.failed + {q}| == |s.failed| + 1;
  }

  /** A queued request has not fulfilled yet. */
  lemma QueuedNotFulfilled(n: nat, maxParallel: int, s: Scheduler, q: nat)
    requires Inv(n, maxParallel, s) && q in s.inFlight
    ensures q !in s.fulfilled
  {
    var i :| 0 <= i < |s.inFlight| && s.inFlight[i] == q;
  }

  /** A set of requests below n has at most n members. */
  lemma {:induction false} RequestSetSize(r: set<nat>, n: nat)
    requires forall k :: k in r ==> k < n
    ensures |r| <= n
    decreases n
  {
    if n != 0 {
      var last: nat := n - 1;
      RequestSetSize(r - {last}, last);
    }
  }

  /** No request is both fulfilled and rejected, so at most n have settled. */
  lemma PotentialNonNegative(n: nat, maxParallel: int, s: Scheduler)
    requires Inv(n, maxParallel, s)
    ensures Potential(n, s) >= 0
  {
    assert s.fulfilled * s.failed == {} by {
      forall k | k in s.failed ensures k !in s.fulfilled {
        var i :| 0 <= i < |s.inFlight| && s.inFlight[i] == k;
      }
    }
    RequestSetSize(s.fulfilled + s.failed, n);
  }

  /** Each event of a trace lowers the potential from its starting value 2n + 1. */
  lemma {:induction false} RunPotential(n: nat, maxParallel: int, events: seq<Event>)
    requires Run(n, maxParallel, events).Some?
    ensures Potential(n, Run(n, maxParallel, events).value) <= 2 * n + 1 - |events|
    decreases |events|
  {
    if |events| != 0 {
      var init, e := events[..|events| - 1], events[|events| - 1];
      RunPotential(n, maxParallel, init);
      RunInv(n, maxParallel, init);
      var s := Run(n, maxParallel, init).value;
      if e.Settle? {
        QueuedNotFulfilled(n, maxParallel, s, e.request);
      }
      StepPotential(n, maxParallel, s, e);
    }
  }

  /**
   * Every valid trace has at most 2n + 1 events: at most n + 1 steps of the
   * function and one settlement per request. With NoDeadlock, every trace
   * that cannot be extended ends in a Terminal state.
   */
  lemma TraceBound(n: nat, maxParallel: int, events: seq<Event>)
    requires Run(n, maxParallel, events).Some?
    ensures |events| <= 2 * n + 1
  {
    RunPotential(n, maxParallel, events);
    RunInv(n, maxParallel, events);
    PotentialNonNegative(n, maxParallel, Run(n, maxParallel, events).value);
  }

  /** A measure that every step of the fulfilling schedule decreases. */
  function Pending(n: nat, s: Scheduler): nat
    requires s.next <= n
  {
    3 * (n - s.next) + |s.inFlight| + (if s.phase == Looping then 1 else if s.phase == Racing then 2 else 0)
  }

  /**
   * If every request fulfils, the function fulfils: settling the oldest queued
   * request whenever the function is suspended leads to `Resolved` with every
   * request fulfilled.
   */
  method FulfilAll(n: nat, maxParallel: int) returns (events: seq<Event>, s: Scheduler)
    ensures Run(n, maxParallel, events) == Some(s)
    ensures s.phase == Resolved
    ensures forall k :: 0 <= k < n <==> k in s.fulfilled
    ensures !HasFailure(events)
  {
    events, s := [], Start;
    while s.phase != Resolved
      invariant Run(n, maxParallel, events) == Some(s)
      invariant Inv(n, maxParallel, s)
      invariant s.failed == {}
      decreases Pending(n, s)
    {
      var e;
      if s.phase == Looping {
        e := Advance;
      } else {
        e := Settle(s.inFlight[0], true);
      }
      FulfilStep(n, maxParallel, events, s, e);
      events, s := events + [e], Step(n, maxParallel, s, e);
    }
    RunInv(n, maxParallel, events);
  }

  /** One step of the fulfilling schedule keeps the trace valid and failure-free and lowers the measure. */
  lemma FulfilStep(n: nat, maxParallel: int, events: seq<Event>, s: Scheduler, e: Event)
    requires Run(n, maxParallel, events) == Some(s) && Inv(n, maxParallel, s)
    requires s.failed == {} && s.phase != Resolved
    requires e == if s.phase == Looping then Advance else Settle(s.inFlight[0], true)
    ensures Enabled(s, e)
    ensures Run(n, maxParallel, events + [e]) == Some(Step(n, maxParallel, s, e))
    ensures Inv(n, maxParallel, Step(n, maxParallel, s, e)) && Step(n, maxParallel, s, e).failed == {}
    ensures Pending(n, Step(n, maxParallel, s, e)) < Pending(n, s)
  {
    RunAppend(n, maxParallel, events, e);
    StepInv(n, maxParallel, s, e);
  }

  /**
   * Four requests with a limit of two, where request 1 fulfils and request 2
   * rejects: the rejection ends the run while request 0 is still in flight
   * and before request 3 has been started.
   */
  lemma RejectionStopsStarting()
    ensures Run(4, 2, [Advance, Advance, Settle(1, true), Advance, Settle(2, false)])
         == Some(Scheduler(3, [0, 2], {1}, {2}, Rejected))
  {
    var prefix := [Advance, Advance, Settle(1, true), Advance];
    var s4 := Scheduler(3, [0, 2], {1}, {}, Racing);
    ScenarioPrefix();
    assert 2 in s4.inFlight;
    assert Step(4, 2, s4, Settle(2, false)) == Scheduler(3, [0, 2], {1}, {2}, Rejected) by {
      assert {} + {2} == {2};
    }
    RunAppend(4, 2, prefix, Settle(2, false));
    assert prefix + [Settle(2, false)] == [Advance, Advance, Settle(1, true), Advance, Settle(2, false)];
  }

  lemma ScenarioPrefix()
    ensures Run(4, 2, [Advance, Advance, Settle(1, true), Advance]) == Some(Scheduler(3, [0, 2], {1}, {}, Racing))
  {
    var prefix := [Advance, Advance, Settle(1, true)];
    var s3 := Scheduler(2, [0], {1}, {}, Looping);
    ScenarioFulfil();
    assert Step(4, 2, s3, Advance) == Scheduler(3, [0, 2], {1}, {}, Racing) by { assert [0] + [2] == [0, 2]; }
    RunAppend(4, 2, prefix, Advance);
    assert prefix + [Advance] == [Advance, Advance, Settle(1, true), Advance];
  }

  lemma ScenarioFulfil()
    ensures Run(4, 2, [Advance, Advance, Settle(1, true)]) == Some(Scheduler(2, [0], {1}, {}, Looping))
  {
    var s2 := Scheduler(2, [0, 1], {}, {}, Racing);
    ScenarioStart();
    RemoveExample();
    assert 1 in s2.inFlight;
    assert Step(4, 2, s2, Settle(1, true)) == Scheduler(2, [0], {1}, {}, Looping) by {
      assert {} + {1} == {1};
    }
    RunAppend(4, 2, [Advance, Advance], Settle(1, true));
    assert [Advance, Advance] + [Settle(1, true)] == [Advance, Advance, Settle(1, true)];
  }

  lemma RemoveExample()
    ensures Seqs.RemoveFirst([0, 1], 1) == [0]
  {
    assert [0, 1][1..] == [1];
    assert Seqs.RemoveFirst([1], 1) == [];
  }

  lemma ScenarioStart()
    ensures Run(4, 2, [Advance, Advance]) == Some(Scheduler(2, [0, 1], {}, {}, Racing))
  {
    var s1 := Scheduler(1, [0], {}, {}, Looping);
    assert Step(4, 2, Start, Advance) == s1 by { assert [] + [0] == [0]; }
    RunAppend(4, 2, [], Advance);
    assert [] + [Advance] == [Advance];
    assert Step(4, 2, s1, Advance) == Scheduler(2, [0, 1], {}, {}, Racing) by { assert [0] + [1] == [0, 1]; }
    RunAppend(4, 2, [Advance], Advance);
    assert [Advance] + [Advance] == [Advance, Advance];
  }
}
