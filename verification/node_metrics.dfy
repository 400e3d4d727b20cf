/**
 * The metrics panel: seconds shown in the largest fitting unit, the
 * 10/30/90-day average toggle and the average POKT earned per day.
 */
module NodeMetrics {
  import opened Wrappers
  import opened UiTypes
  import Js

  /** A duration as the panel shows it: a whole number of some unit. */
  datatype TimeUnits = TimeUnits(units: string, value: int)

  const Days: string := " days"
  const Hours: string := " hours"
  const Minutes: string := "minutes"
  const Seconds: string := "seconds"

  /** How many seconds one of the units above stands for. */
  function UnitSeconds(units: string): real {
    if units == Days then 86400.0
    else if units == Hours then 3600.0
    else if units == Minutes then 60.0
    else 1.0
  }

  /** The units from smallest to largest. */
  function UnitRank(units: string): nat {
    if units == Days then 3
    else if units == Hours then 2
    else if units == Minutes then 1
    else 0
  }

  /**
   * `timeUnits(seconds)`: the largest unit of which the duration is strictly
   * more than one, and the duration floored to whole units of it.
   */
  function ToTimeUnits(seconds: real): (t: TimeUnits)
    ensures t.units == Days <==> seconds > 86400.0
    ensures t.units == Hours <==> 3600.0 < seconds <= 86400.0
    ensures t.units == Minutes <==> 60.0 < seconds <= 3600.0
    ensures t.units == Seconds <==> seconds <= 60.0
    ensures (t.value as real) * UnitSeconds(t.units) <= seconds < ((t.value + 1) as real) * UnitSeconds(t.units)
    ensures t.units != Seconds ==> t.value >= 1
  {
    if seconds / 86400.0 > 1.0 then TimeUnits(Days, (seconds / 86400.0).Floor)
    else if seconds / 3600.0 > 1.0 then TimeUnits(Hours, (seconds / 3600.0).Floor)
    else if seconds / 60.0 > 1.0 then TimeUnits(Minutes, (seconds / 60.0).Floor)
    else TimeUnits(Seconds, seconds.Floor)
  }

  /** Exactly one day is not more than one day, so it shows as 24 hours. */
  lemma OneDayIsHours()
    ensures ToTimeUnits(86400.0) == TimeUnits(Hours, 24)
  {
  }

  /** The "no data" sentinel −1 comes back as −1 seconds, which the panel shows as absent. */
  lemma SentinelStaysNegative()
    ensures ToTimeUnits(-1.0) == TimeUnits(Seconds, -1)
  {
  }

  /** A longer duration never shows in a smaller unit. */
  lemma UnitsMonotone(a: real, b: real)
    requires a <= b
    ensures UnitRank(ToTimeUnits(a).units) <= UnitRank(ToTimeUnits(b).units)
  {
  }

  /** The value shown is never more than the duration in seconds, once it is past a minute. */
  lemma ValueBelowSeconds(seconds: real)
    requires seconds > 60.0
    ensures (ToTimeUnits(seconds).value as real) < seconds
  {
  }

  /** One click on the average panel: the next state, wrapping from 2 back to 0. */
  function NextWindow(state: int): (n: int)
    ensures n <= 2
    ensures 0 <= state <= 2 ==> 0 <= n && n == (state + 1) % 3
    ensures state < 2 ==> n == state + 1
  {
    var next := state + 1;
    if next > 2 then 0 else next
  }

  /** The toggle state after `clicks` clicks from the initial state 0. */
  function WindowAfter(clicks: nat): int {
    if clicks == 0 then 0 else NextWindow(WindowAfter(clicks - 1))
  }

  /** The toggle cycles 0, 1, 2, 0, … and never leaves {0, 1, 2}. */
  lemma {:induction false} WindowCycles(clicks: nat)
    ensures WindowAfter(clicks) == clicks % 3
    ensures 0 <= WindowAfter(clicks) <= 2
  {
    if clicks > 0 {
      WindowCycles(clicks - 1);
    }
  }

  /** The number of days averaged in each toggle state; no panel is drawn for any other state. */
  function WindowDays(state: int): (d: Option<nat>)
    ensures d.Some? <==> 0 <= state <= 2
    ensures d.Some? ==> d.value in {10, 30, 90}
  {
    if state == 0 then Some(10) else if state == 1 then Some(30) else if state == 2 then Some(90) else None
  }

  /** Every reachable toggle state draws a panel, and three clicks bring back the same one. */
  lemma AlwaysAWindow(clicks: nat)
    ensures WindowDays(WindowAfter(clicks)).Some?
    ensures WindowDays(WindowAfter(clicks + 3)) == WindowDays(WindowAfter(clicks))
  {
    WindowCycles(clicks);
    WindowCycles(clicks + 3);
  }

  const DayMillis: int := 86400 * 1000

  /**
   * The earliest transaction time that counts: `numDays` days before now, or
   * for zero days one second and now's milliseconds past today's local
   * midnight, since `setHours(0, 0, 1)` without a milliseconds argument keeps
   * the milliseconds of the current time. `%` on a positive divisor is the
   * floored remainder, as JS `msFromTime` takes it for times before 1970 too.
   */
  function Cutoff(numDays: int, nowMillis: int, midnightMillis: int): int {
    if numDays == 0 then midnightMillis + 1000 + nowMillis % 1000 else nowMillis - numDays * DayMillis
  }

  /**
   * The zero-day cutoff lies within the second after 00:00:01, and a
   * confirmed transaction stamped exactly 00:00:01.000 counts only when now
   * falls on a whole second.
   */
  lemma ZeroDayCutoff(t: RewardTx, nowMillis: int, midnightMillis: int)
    requires t.isConfirmed && t.time == midnightMillis + 1000 && t.amount != 0.0
    ensures midnightMillis + 1000 <= Cutoff(0, nowMillis, midnightMillis) < midnightMillis + 2000
    ensures Earned(t, Cutoff(0, nowMillis, midnightMillis)) == t.amount <==> nowMillis % 1000 == 0
  {
  }

  /** Five hours and 500 ms into the day, a transaction at 00:00:01.000 earns nothing. */
  lemma ZeroDayExample(t: RewardTx, midnightMillis: int)
    requires t.isConfirmed && t.time == midnightMillis + 1000 && t.amount != 0.0
    requires midnightMillis % 1000 == 0
    ensures Cutoff(0, midnightMillis + 18000500, midnightMillis) == midnightMillis + 1500
    ensures Earned(t, Cutoff(0, midnightMillis + 18000500, midnightMillis)) == 0.0
  {
  }

  /** The amount a transaction contributes: its reward when confirmed and not older than the cutoff. */
  function Earned(t: RewardTx, cutoff: int): real {
    if t.time >= cutoff && t.isConfirmed then t.amount else 0.0
  }

  /** The amounts earned by a list of transactions. */
  function TxsEarned(txs: seq<RewardTx>, cutoff: int): real
    decreases |txs|
  {
    if |txs| == 0 then 0.0 else TxsEarned(txs[..|txs| - 1], cutoff) + Earned(txs[|txs| - 1], cutoff)
  }

  /** The amounts earned over every month's transactions. */
  function MonthsEarned(rewards: seq<MonthReward>, cutoff: int): real
    decreases |rewards|
  {
    if |rewards| == 0 then 0.0
    else MonthsEarned(rewards[..|rewards| - 1], cutoff) + TxsEarned(rewards[|rewards| - 1].transactions, cutoff)
  }

  /** All transactions of all months, month by month. */
  function AllTxs(rewards: seq<MonthReward>): seq<RewardTx>
    decreases |rewards|
  {
    if |rewards| == 0 then [] else AllTxs(rewards[..|rewards| - 1]) + rewards[|rewards| - 1].transactions
  }

  lemma {:induction false} TxsEarnedConcat(a: seq<RewardTx>, b: seq<RewardTx>, cutoff: int)
    ensures TxsEarned(a + b, cutoff) == TxsEarned(a, cutoff) + TxsEarned(b, cutoff)
    decreases |b|
  {
    if |b| == 0 {
      assert a + b == a;
    } else {
      assert (a + b)[..|a + b| - 1] == a + b[..|b| - 1];
      TxsEarnedConcat(a, b[..|b| - 1], cutoff);
    }
  }

  /** Summing month by month is summing over all transactions at once. */
  lemma {:induction false} MonthsEarnedIsFlat(rewards: seq<MonthReward>, cutoff: int)
    ensures MonthsEarned(rewards, cutoff) == TxsEarned(AllTxs(rewards), cutoff)
    decreases |rewards|
  {
    if |rewards| != 0 {
      MonthsEarnedIsFlat(rewards[..|rewards| - 1], cutoff);
      TxsEarnedConcat(AllTxs(rewards[..|rewards| - 1]), rewards[|rewards| - 1].transactions, cutoff);
    }
  }

  /**
   * An unconfirmed transaction, or one older than the cutoff, adds nothing
   * wherever it sits in the list.
   */
  lemma IgnoredTxAddsNothing(a: seq<RewardTx>, t: RewardTx, b: seq<RewardTx>, cutoff: int)
    requires !t.isConfirmed || t.time < cutoff
    ensures TxsEarned(a + [t] + b, cutoff) == TxsEarned(a + b, cutoff)
  {
    TxsEarnedConcat(a + [t], b, cutoff);
    TxsEarnedConcat(a, b, cutoff);
    assert (a + [t])[..|a + [t]| - 1] == a;
  }

  /** A counted transaction adds exactly its amount, wherever it sits in the list. */
  lemma CountedTxAddsAmount(a: seq<RewardTx>, t: RewardTx, b: seq<RewardTx>, cutoff: int)
    requires t.isConfirmed && t.time >= cutoff
    ensures TxsEarned(a + [t] + b, cutoff) == TxsEarned(a + b, cutoff) + t.amount
  {
    TxsEarnedConcat(a + [t], b, cutoff);
    TxsEarnedConcat(a, b, cutoff);
    assert (a + [t])[..|a + [t]| - 1] == a;
  }

  /**
   * `avgPoktForLastDays(numDays)`: the amount earned since the cutoff, per day
   * when numDays is positive, rounded half up.
   */
  function AvgPoktForLastDays(rewards: seq<MonthReward>, numDays: int, nowMillis: int, midnightMillis: int): (r: int)
    ensures var total := TxsEarned(AllTxs(rewards), Cutoff(numDays, nowMillis, midnightMillis));
            var perDay := if numDays > 0 then total / (numDays as real) else total;
            (r as real) - 0.5 <= perDay < (r as real) + 0.5
  {
    var total := MonthsEarned(rewards, Cutoff(numDays, nowMillis, midnightMillis));
    MonthsEarnedIsFlat(rewards, Cutoff(numDays, nowMillis, midnightMillis));
    var pokt := if numDays > 0 then total / (numDays as real) else total;
    Js.MathRound(pokt)
  }

  /** With nothing earned in the window the average is 0. */
  lemma NothingEarnedAveragesZero(rewards: seq<MonthReward>, numDays: int, nowMillis: int, midnightMillis: int)
    requires forall t :: t in AllTxs(rewards) ==> !t.isConfirmed || t.time < Cutoff(numDays, nowMillis, midnightMillis)
    ensures AvgPoktForLastDays(rewards, numDays, nowMillis, midnightMillis) == 0
  {
    NoCountedTxEarnsZero(AllTxs(rewards), Cutoff(numDays, nowMillis, midnightMillis));
  }

  lemma {:induction false} NoCountedTxEarnsZero(txs: seq<RewardTx>, cutoff: int)
    requires forall t :: t in txs ==> !t.isConfirmed || t.time < cutoff
    ensures TxsEarned(txs, cutoff) == 0.0
    decreases |txs|
  {
    if |txs| != 0 {
      assert txs[|txs| - 1] in txs;
      NoCountedTxEarnsZero(txs[..|txs| - 1], cutoff);
    }
  }
}
