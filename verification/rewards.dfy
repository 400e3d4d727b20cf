/**
 * `Service.RewardsByMonth`: pairing every claim with its proof, bucketing the
 * claims by calendar month, and the per-month totals and gap statistics.
 * Go's map iteration order is an explicit parameter `order`, an enumeration
 * of the claim map's keys.
 */
module RewardAggregation {
  import opened Wrappers
  import opened Text
  import opened Pocket
  import Seqs
  import Sorting

  /** `fmt.Sprintf("%d-%d", year, month)`. */
  function YearMonthKey(year: nat, month: Month): string {
    DecimalString(year) + "-" + DecimalString(month)
  }

  function MonthKey(t: Time): string {
    YearMonthKey(t.year, t.month)
  }

  /** Digits cannot contain '-', so the separator splits a key in exactly one place. */
  lemma {:induction false} SplitAtDash(x: string, y: string, u: string, v: string)
    requires AllDigits(x) && AllDigits(u)
    requires x + "-" + y == u + "-" + v
    ensures x == u && y == v
  {
    var k := x + "-" + y;
    if |x| < |u| {
      PrefixAt(u, "-" + v, |x|);
      DashAt(x, y);
      assert false;
    } else if |u| < |x| {
      PrefixAt(x, "-" + y, |u|);
      DashAt(u, v);
      assert false;
    }
    assert x == k[..|x|] == u;
    assert y == k[|x| + 1..] == v;
  }

  lemma DashAt(x: string, y: string)
    ensures (x + "-" + y)[|x|] == '-'
  {
  }

  lemma PrefixAt(x: string, y: string, i: nat)
    requires i < |x|
    ensures (x + y)[i] == x[i]
  {
  }

  /** Distinct (year, month) pairs have distinct keys. */
  lemma YearMonthKeyInjective(y1: nat, m1: Month, y2: nat, m2: Month)
    requires YearMonthKey(y1, m1) == YearMonthKey(y2, m2)
    ensures y1 == y2 && m1 == m2
  {
    SplitAtDash(DecimalString(y1), DecimalString(m1), DecimalString(y2), DecimalString(m2));
    DecimalStringInjective(y1, y2);
    DecimalStringInjective(m1, m2);
  }

  /** A claim as it is aggregated: confirmed iff a proof under the same key exists with result code 0. */
  function Confirm(key: string, tx: Transaction, proofs: map<string, Transaction>): (r: Transaction)
    ensures r.isConfirmed <==> key in proofs && proofs[key].resultCode == 0
    ensures r.(isConfirmed := tx.isConfirmed) == tx
  {
    tx.(isConfirmed := key in proofs && proofs[key].resultCode == 0)
  }

  const DayNames: seq<string> := ["Sunday", "Monday", "Tuesday", "Wednesday", "Thursday", "Friday", "Saturday"]

  /** The seven day entries a new month starts with, Sunday = 0, each with 0 proofs. */
  const EmptyWeek: map<int, DayOfWeek> :=
    map[0 := DayOfWeek("Sunday", 0), 1 := DayOfWeek("Monday", 0), 2 := DayOfWeek("Tuesday", 0),
        3 := DayOfWeek("Wednesday", 0), 4 := DayOfWeek("Thursday", 0), 5 := DayOfWeek("Friday", 0),
        6 := DayOfWeek("Saturday", 0)]

  predicate HasAllDays(days: map<int, DayOfWeek>) {
    forall d :: 0 <= d <= 6 ==> d in days
  }

  function NewMonth(t: Time): MonthlyReward {
    MonthlyReward(t.year, t.month, 0, 0.0, 0, EmptyWeek, [])
  }

  function ConfirmedRelays(t: Transaction): int {
    if t.isConfirmed then t.numRelays else 0
  }

  function InMonth(mk: string): Transaction -> bool {
    (t: Transaction) => MonthKey(t.time) == mk
  }

  function OnWeekday(d: int): Transaction -> int {
    (t: Transaction) => if t.time.weekday == d then t.numRelays else 0
  }

  function TxUnix(t: Transaction): int {
    t.time.unix
  }

  /** The claims in visiting order, each marked confirmed or not. */
  function Annotated(claims: map<string, Transaction>, proofs: map<string, Transaction>, order: seq<string>): (a: seq<Transaction>)
    requires forall k :: k in order ==> k in claims
    ensures |a| == |order|
    ensures forall i :: 0 <= i < |order| ==> a[i] == Confirm(order[i], claims[order[i]], proofs)
    decreases |order|
  {
    if |order| == 0 then []
    else
      var n := |order| - 1;
      Annotated(claims, proofs, order[..n]) + [Confirm(order[n], claims[order[n]], proofs)]
  }

  /** Adds one (already confirmed or not) claim to its month, creating the month on first use. */
  function AddClaim(months: map<string, MonthlyReward>, tx: Transaction): map<string, MonthlyReward> {
    var mk := MonthKey(tx.time);
    var month := if mk in months then months[mk] else NewMonth(tx.time);
    months[mk := month.(totalProofs := month.totalProofs + ConfirmedRelays(tx), transactions := month.transactions + [tx])]
  }

  /** Folds `AddClaim` over the claims in order. */
  function Months(a: seq<Transaction>): map<string, MonthlyReward>
    decreases |a|
  {
    if |a| == 0 then map[] else AddClaim(Months(a[..|a| - 1]), a[|a| - 1])
  }

  /** The first loop of `RewardsByMonth`: every claim, marked, in visiting order, into its month. */
  function Collect(claims: map<string, Transaction>, proofs: map<string, Transaction>, order: seq<string>): map<string, MonthlyReward>
    requires forall k :: k in order ==> k in claims
  {
    Months(Annotated(claims, proofs, order))
  }

  /** A month exists after the first loop iff some claim falls in it. */
  lemma MonthsKeys(a: seq<Transaction>, mk: string)
    ensures mk in Months(a) <==> exists i :: 0 <= i < |a| && MonthKey(a[i].time) == mk
  {
    MonthsKeysOf(a, mk);
    if mk in Months(a) {
      var t :| t in a && MonthKey(t.time) == mk;
      var i :| 0 <= i < |a| && a[i] == t;
    } else {
      forall i | 0 <= i < |a| ensures MonthKey(a[i].time) != mk {
        assert a[i] in a;
      }
    }
  }

  /** The same, stated over the claims rather than their positions. */
  lemma MonthsKeysOf(a: seq<Transaction>, mk: string)
    ensures mk in Months(a) <==> exists t :: t in a && MonthKey(t.time) == mk
  {
    MonthsKeySet(a);
    if mk in Months(a) {
      assert mk in KeysOf(a);
    }
  }

  /** The month keys of the claims in a. */
  function KeysOf(a: seq<Transaction>): set<string> {
    set t | t in a :: MonthKey(t.time)
  }

  lemma {:induction false} MonthsKeySet(a: seq<Transaction>)
    ensures Months(a).Keys == KeysOf(a)
    decreases |a|
  {
    if |a| != 0 {
      var n := |a| - 1;
      var a0 := a[..n];
      MonthsKeySet(a0);
      assert a == a0 + [a[n]];
      assert KeysOf(a) == KeysOf(a0) + {MonthKey(a[n].time)};
    }
  }

  /** The fields a month keeps from its creation through the first loop. */
  lemma {:induction false} MonthsFresh(a: seq<Transaction>, mk: string)
    requires mk in Months(a)
    ensures var m := Months(a)[mk];
      && m.daysOfWeek == EmptyWeek
      && m.avgSecsBetweenRewards == 0.0 && m.totalSecsBetweenRewards == 0
      && YearMonthKey(m.year, m.month) == mk
    decreases |a|
  {
    var n := |a| - 1;
    if mk in Months(a[..n]) {
      MonthsFresh(a[..n], mk);
    }
  }

  /** How adding one claim changes month mk. */
  lemma AddClaimAt(months: map<string, MonthlyReward>, tx: Transaction, mk: string)
    ensures MonthKey(tx.time) != mk ==> (mk in AddClaim(months, tx) <==> mk in months)
    ensures MonthKey(tx.time) != mk && mk in months ==> AddClaim(months, tx)[mk] == months[mk]
    ensures MonthKey(tx.time) == mk ==> mk in AddClaim(months, tx)
    ensures MonthKey(tx.time) == mk ==>
      var before := if mk in months then months[mk].transactions else [];
      var total := if mk in months then months[mk].totalProofs else 0;
      AddClaim(months, tx)[mk].transactions == before + [tx]
      && AddClaim(months, tx)[mk].totalProofs == total + ConfirmedRelays(tx)
  {
  }

  /** Month mk holds exactly the claims of that month, in visiting order, and the relays of the confirmed ones. */
  lemma {:induction false} MonthsContents(a: seq<Transaction>, mk: string)
    requires mk in Months(a)
    ensures var m := Months(a)[mk];
      var inMonth := Seqs.Filter(a, InMonth(mk));
      m.transactions == inMonth && m.totalProofs == Seqs.Sum(inMonth, ConfirmedRelays)
    decreases |a|
  {
    var n := |a| - 1;
    var a0 := a[..n];
    var tx := a[n];
    var f0 := Seqs.Filter(a0, InMonth(mk));
    AddClaimAt(Months(a0), tx, mk);
    Seqs.FilterStep(a, InMonth(mk));
    if mk in Months(a0) {
      MonthsContents(a0, mk);
    } else {
      MonthsKeys(a0, mk);
      Seqs.FilterEmpty(a0, InMonth(mk));
    }
    if MonthKey(tx.time) == mk {
      Seqs.SumStep(f0 + [tx], ConfirmedRelays);
      assert (f0 + [tx])[..|f0|] == f0;
    } else {
      assert f0 + [] == f0;
    }
  }

  /**
   * The gap walk of the second loop, from the front: a transaction adds the
   * gap to the previous one unless the previous one is the zero transaction.
   * Returns the total seconds and the number of gaps counted.
   */
  function Gaps(txs: seq<Transaction>, prev: Transaction): (r: (int, nat))
    decreases |txs|
  {
    if |txs| == 0 then (0, 0)
    else
      var rest := Gaps(txs[1..], txs[0]);
      if prev != ZeroTransaction then (rest.0 + txs[0].time.unix - prev.time.unix, rest.1 + 1)
      else rest
  }

  /** No gap counted means no seconds counted, so the average's 0/0 (NaN, reset to 0) is the only degenerate case. */
  lemma {:induction false} GapsNoneMeansZero(txs: seq<Transaction>, prev: Transaction)
    ensures Gaps(txs, prev).1 == 0 ==> Gaps(txs, prev).0 == 0
    decreases |txs|
  {
    if |txs| != 0 {
      GapsNoneMeansZero(txs[1..], txs[0]);
    }
  }

  predicate NonZero(txs: seq<Transaction>) {
    forall i :: 0 <= i < |txs| ==> txs[i] != ZeroTransaction
  }

  /** With a real previous transaction the gaps telescope to last − prev, one gap per transaction. */
  lemma {:induction false} GapsTelescope(txs: seq<Transaction>, prev: Transaction)
    requires prev != ZeroTransaction && NonZero(txs) && 0 < |txs|
    ensures Gaps(txs, prev) == (txs[|txs| - 1].time.unix - prev.time.unix, |txs|)
    decreases |txs|
  {
    if |txs| > 1 {
      GapsTelescope(txs[1..], txs[0]);
    }
  }

  /** From the start of a month: the total is last − first over |txs| − 1 gaps. */
  lemma GapsFromStart(txs: seq<Transaction>)
    requires NonZero(txs) && 0 < |txs|
    ensures Gaps(txs, ZeroTransaction) == (txs[|txs| - 1].time.unix - txs[0].time.unix, |txs| - 1)
  {
    if |txs| > 1 {
      GapsTelescope(txs[1..], txs[0]);
    }
  }

  /** The weekday counters of the second loop: every transaction's relays go to its weekday. */
  function AddDays(days: map<int, DayOfWeek>, txs: seq<Transaction>): (r: map<int, DayOfWeek>)
    requires HasAllDays(days)
    ensures r.Keys == days.Keys
    ensures forall d :: d in days ==> r[d].name == days[d].name
    decreases |txs|
  {
    if |txs| == 0 then days
    else
      var before := AddDays(days, txs[..|txs| - 1]);
      var tx := txs[|txs| - 1];
      var d := tx.time.weekday;
      before[d := before[d].(proofs := before[d].proofs + tx.numRelays)]
  }

  /** Day d ends with its starting count plus the relays of every transaction on weekday d. */
  lemma {:induction false} AddDaysSum(days: map<int, DayOfWeek>, txs: seq<Transaction>, d: int)
    requires HasAllDays(days) && 0 <= d <= 6
    ensures AddDays(days, txs)[d].proofs == days[d].proofs + Seqs.Sum(txs, OnWeekday(d))
    decreases |txs|
  {
    if |txs| != 0 {
      AddDaysSum(days, txs[..|txs| - 1], d);
    }
  }

  /** The second loop on one month: sort by time, count weekdays, total and average the gaps. */
  function Summarise(m: MonthlyReward): (r: MonthlyReward)
    requires HasAllDays(m.daysOfWeek)
    ensures Sorting.SortedAsc(r.transactions, TxUnix)
    ensures multiset(r.transactions) == multiset(m.transactions)
    ensures r.year == m.year && r.month == m.month && r.totalProofs == m.totalProofs
  {
    var txs := Sorting.SortAsc(m.transactions, TxUnix);
    var (total, gaps) := Gaps(txs, ZeroTransaction);
    m.(transactions := txs,
       daysOfWeek := AddDays(m.daysOfWeek, txs),
       avgSecsBetweenRewards := Average((total, gaps)),
       totalSecsBetweenRewards := total)
  }

  lemma CollectedDays(claims: map<string, Transaction>, proofs: map<string, Transaction>, order: seq<string>)
    requires forall k :: k in order ==> k in claims
    ensures forall mk :: mk in Collect(claims, proofs, order) ==> HasAllDays(Collect(claims, proofs, order)[mk].daysOfWeek)
  {
    forall mk | mk in Collect(claims, proofs, order)
      ensures HasAllDays(Collect(claims, proofs, order)[mk].daysOfWeek)
    {
      MonthsFresh(Annotated(claims, proofs, order), mk);
    }
  }

  /** `RewardsByMonth` once the claims and proofs are collected. */
  function RewardsByMonth(claims: map<string, Transaction>, proofs: map<string, Transaction>, order: seq<string>): map<string, MonthlyReward>
    requires Seqs.IsEnumeration(order, claims)
  {
    var c := Collect(claims, proofs, order);
    CollectedDays(claims, proofs, order);
    map mk | mk in c :: Summarise(c[mk])
  }

  /** The error of the collection step is passed on with the method's prefix. */
  function RewardsByMonthOf(collected: Result<(map<string, Transaction>, map<string, Transaction>)>, order: seq<string>)
    : (r: Result<map<string, MonthlyReward>>)
    requires collected.Ok? ==> Seqs.IsEnumeration(order, collected.value.0)
    ensures collected.Err? ==> r == Err("RewardsByMonth: " + collected.msg)
    ensures collected.Ok? ==> r.Ok? && r.value == RewardsByMonth(collected.value.0, collected.value.1, order)
  {
    match collected
    case Err(e) => Err("RewardsByMonth: " + e)
    case Ok(cp) => Ok(RewardsByMonth(cp.0, cp.1, order))
  }

  /** The weekday entries of a summarised month: each day's name, and the relays of the claims on that day. */
  ghost predicate DaysSummary(days: map<int, DayOfWeek>, inMonth: seq<Transaction>) {
    forall d :: 0 <= d <= 6 ==> d in days && days[d].name == DayNames[d] && days[d].proofs == Seqs.Sum(inMonth, OnWeekday(d))
  }

  /** The gap statistics of a summarised month of real (non-zero) transactions. */
  ghost predicate GapSummary(m: MonthlyReward, inMonth: seq<Transaction>)
    requires |m.transactions| == |inMonth|
  {
    0 < |inMonth| && NonZero(inMonth) ==>
      var first, last := m.transactions[0].time.unix, m.transactions[|m.transactions| - 1].time.unix;
      && (forall t :: t in inMonth ==> first <= t.time.unix <= last)
      && m.totalSecsBetweenRewards == last - first
      && m.avgSecsBetweenRewards == (if |inMonth| == 1 then 0.0 else (last - first) as real / (|inMonth| - 1) as real)
  }

  /** What a month of the result says about the claims that fell in it. */
  ghost predicate MonthSummary(m: MonthlyReward, inMonth: seq<Transaction>, mk: string) {
    && YearMonthKey(m.year, m.month) == mk
    && Sorting.SortedAsc(m.transactions, TxUnix)
    && multiset(m.transactions) == multiset(inMonth)
    && m.totalProofs == Seqs.Sum(inMonth, ConfirmedRelays)
    && DaysSummary(m.daysOfWeek, inMonth)
    && |m.transactions| == |inMonth|
    && GapSummary(m, inMonth)
  }

  lemma EmptyWeekNames(d: int)
    requires 0 <= d <= 6
    ensures d in EmptyWeek && EmptyWeek[d] == DayOfWeek(DayNames[d], 0)
  {
  }

  lemma EmptyWeekHasAllDays()
    ensures HasAllDays(EmptyWeek)
  {
  }

  /** A sorted sequence's first and last keys bound every element's key. */
  lemma SortedBounds(s: seq<Transaction>, t: Transaction)
    requires Sorting.SortedAsc(s, TxUnix) && t in s
    ensures s[0].time.unix <= t.time.unix <= s[|s| - 1].time.unix
  {
    var i :| 0 <= i < |s| && s[i] == t;
    assert TxUnix(s[0]) <= TxUnix(s[i]) <= TxUnix(s[|s| - 1]);
  }

  lemma SummariseDays(m: MonthlyReward)
    requires m.daysOfWeek == EmptyWeek
    ensures HasAllDays(m.daysOfWeek) && DaysSummary(Summarise(m).daysOfWeek, m.transactions)
  {
    EmptyWeekHasAllDays();
    var txs := Sorting.SortAsc(m.transactions, TxUnix);
    assert Summarise(m).daysOfWeek == AddDays(m.daysOfWeek, txs);
    forall d | 0 <= d <= 6
      ensures d in Summarise(m).daysOfWeek && Summarise(m).daysOfWeek[d].name == DayNames[d]
        && Summarise(m).daysOfWeek[d].proofs == Seqs.Sum(m.transactions, OnWeekday(d))
    {
      EmptyWeekNames(d);
      AddDaysSum(m.daysOfWeek, txs, d);
      Seqs.SumPermutation(txs, m.transactions, OnWeekday(d));
    }
  }

  /** The gap statistics of a time-sorted, non-zero sequence, from the start of a month. */
  lemma SortedGaps(txs: seq<Transaction>, original: seq<Transaction>)
    requires Sorting.SortedAsc(txs, TxUnix) && multiset(txs) == multiset(original)
    requires 0 < |original| && NonZero(original)
    ensures |txs| == |original|
    ensures Gaps(txs, ZeroTransaction) == (txs[|txs| - 1].time.unix - txs[0].time.unix, |txs| - 1)
    ensures forall t :: t in original ==> txs[0].time.unix <= t.time.unix <= txs[|txs| - 1].time.unix
  {
    assert |txs| == |multiset(txs)| == |original|;
    assert NonZero(txs) by {
      forall i | 0 <= i < |txs| ensures txs[i] != ZeroTransaction {
        assert txs[i] in multiset(original);
      }
    }
    GapsFromStart(txs);
    forall t | t in original ensures txs[0].time.unix <= t.time.unix <= txs[|txs| - 1].time.unix {
      assert t in multiset(txs);
      SortedBounds(txs, t);
    }
  }

  /** The average `Summarise` stores: total over gap count, with 0/0 (NaN in Go) reset to 0. */
  function Average(g: (int, nat)): real {
    if g.1 == 0 then 0.0 else g.0 as real / g.1 as real
  }

  lemma GapSummaryOf(r: MonthlyReward, original: seq<Transaction>)
    requires Sorting.SortedAsc(r.transactions, TxUnix) && multiset(r.transactions) == multiset(original)
    requires r.totalSecsBetweenRewards == Gaps(r.transactions, ZeroTransaction).0
    requires r.avgSecsBetweenRewards == Average(Gaps(r.transactions, ZeroTransaction))
    ensures |r.transactions| == |original|
    ensures GapSummary(r, original)
  {
    var txs := r.transactions;
    assert |txs| == |multiset(txs)| == |original|;
    if 0 < |original| && NonZero(original) {
      SortedGaps(txs, original);
    }
  }

  lemma SummariseGaps(m: MonthlyReward)
    requires HasAllDays(m.daysOfWeek)
    ensures |Summarise(m).transactions| == |m.transactions|
    ensures GapSummary(Summarise(m), m.transactions)
  {
    GapSummaryOf(Summarise(m), m.transactions);
  }

  /** `Summarise` on a freshly collected month. */
  lemma SummariseSpec(m: MonthlyReward, mk: string)
    requires m.daysOfWeek == EmptyWeek && YearMonthKey(m.year, m.month) == mk
    requires m.totalProofs == Seqs.Sum(m.transactions, ConfirmedRelays)
    ensures HasAllDays(m.daysOfWeek) && MonthSummary(Summarise(m), m.transactions, mk)
  {
    SummariseDays(m);
    SummariseGaps(m);
    Seqs.SumPermutation(Summarise(m).transactions, m.transactions, ConfirmedRelays);
  }

  /** A month of the result is the summary of the month the first loop collected. */
  lemma RewardsByMonthAt(claims: map<string, Transaction>, proofs: map<string, Transaction>, order: seq<string>, mk: string)
    requires Seqs.IsEnumeration(order, claims)
    ensures mk in RewardsByMonth(claims, proofs, order) <==> mk in Collect(claims, proofs, order)
    ensures mk in Collect(claims, proofs, order) ==>
      HasAllDays(Collect(claims, proofs, order)[mk].daysOfWeek)
      && RewardsByMonth(claims, proofs, order)[mk] == Summarise(Collect(claims, proofs, order)[mk])
  {
    CollectedDays(claims, proofs, order);
  }

  /**
   * `RewardsByMonth`: a month is present iff some claim falls in it, and each
   * month summarises exactly its claims: sorted by time, confirmed relays in
   * the total, all relays by weekday, and the gap statistics.
   */
  lemma RewardsByMonthSpec(claims: map<string, Transaction>, proofs: map<string, Transaction>, order: seq<string>, mk: string)
    requires Seqs.IsEnumeration(order, claims)
    ensures var a := Annotated(claims, proofs, order);
      mk in RewardsByMonth(claims, proofs, order) <==> exists i :: 0 <= i < |a| && MonthKey(a[i].time) == mk
    ensures var a := Annotated(claims, proofs, order);
      mk in RewardsByMonth(claims, proofs, order) ==>
      MonthSummary(RewardsByMonth(claims, proofs, order)[mk], Seqs.Filter(a, InMonth(mk)), mk)
  {
    var a := Annotated(claims, proofs, order);
    RewardsByMonthAt(claims, proofs, order, mk);
    MonthsKeys(a, mk);
    if mk in Months(a) {
      MonthsFresh(a, mk);
      MonthsContents(a, mk);
      SummariseSpec(Months(a)[mk], mk);
    }
  }

  /** The claims in month mk of the result: exactly the claims whose time falls in that month. */
  lemma MonthTransactions(claims: map<string, Transaction>, proofs: map<string, Transaction>, order: seq<string>, mk: string)
    requires Seqs.IsEnumeration(order, claims)
    requires mk in RewardsByMonth(claims, proofs, order)
    ensures var a := Annotated(claims, proofs, order);
      forall t :: t in RewardsByMonth(claims, proofs, order)[mk].transactions <==> t in a && MonthKey(t.time) == mk
  {
    var a := Annotated(claims, proofs, order);
    RewardsByMonthAt(claims, proofs, order, mk);
    MonthsContents(a, mk);
    var collected := Months(a)[mk].transactions;
    var r := RewardsByMonth(claims, proofs, order)[mk];
    assert multiset(r.transactions) == multiset(collected);
    forall t ensures t in r.transactions <==> t in collected {
      assert t in r.transactions <==> t in multiset(r.transactions);
      assert t in collected <==> t in multiset(collected);
    }
  }

  /** Every claim lands in the month of its own time, and in no other month. */
  lemma ClaimInOneMonth(claims: map<string, Transaction>, proofs: map<string, Transaction>, order: seq<string>, i: nat, other: string)
    requires Seqs.IsEnumeration(order, claims) && i < |order|
    ensures var t := Annotated(claims, proofs, order)[i];
      var r := RewardsByMonth(claims, proofs, order);
      MonthKey(t.time) in r && t in r[MonthKey(t.time)].transactions
      && (other in r && other != MonthKey(t.time) ==> t !in r[other].transactions)
  {
    var a := Annotated(claims, proofs, order);
    var mk := MonthKey(a[i].time);
    RewardsByMonthAt(claims, proofs, order, mk);
    MonthsKeys(a, mk);
    MonthTransactions(claims, proofs, order, mk);
    if other in RewardsByMonth(claims, proofs, order) {
      MonthTransactions(claims, proofs, order, other);
    }
  }

  /** When the claim map holds only claims, no proof (or other type) appears in any month. */
  lemma OnlyClaimsInMonths(claims: map<string, Transaction>, proofs: map<string, Transaction>, order: seq<string>, mk: string, t: Transaction)
    requires Seqs.IsEnumeration(order, claims)
    requires forall k :: k in claims ==> claims[k].txType == TypeClaim
    requires mk in RewardsByMonth(claims, proofs, order) && t in RewardsByMonth(claims, proofs, order)[mk].transactions
    ensures t.txType == TypeClaim
  {
    var a := Annotated(claims, proofs, order);
    MonthTransactions(claims, proofs, order, mk);
    assert t in a;
    var i :| 0 <= i < |a| && a[i] == t;
    var k := order[i];
    assert k in claims;
    assert t == Confirm(k, claims[k], proofs);
    assert t.txType == claims[k].txType;
  }
}
