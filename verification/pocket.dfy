/**
 * The monitoring service's `pocket` data: transactions, monthly rewards and the
 * confirmed-only amount of a month.
 */
module Pocket {
  import Seqs
  import Chains

  const TypeClaim: string := "pocketcore/claim"
  const TypeProof: string := "pocketcore/proof"

  type Month = m: int | 1 <= m <= 12 witness 1
  type Weekday = d: int | 0 <= d <= 6

  /**
   * A `time.Time`, abstracted to whole Unix seconds together with the calendar
   * fields the service reads from it (`Year()`, `Month()`, `Weekday()` with
   * Sunday = 0).
   */
  datatype Time = Time(unix: int, year: nat, month: Month, weekday: Weekday)

  /** Go's zero `time.Time`: Monday, 1 January of year 1. */
  const ZeroTime: Time := Time(-62135596800, 1, 1, 1)

  /**
   * A reward transaction. The last four fields are read by the service and
   * the rewards code but are not declared in this version of the struct, so
   * they are modelled as plain fields: `NumRelays`, `ResultCode`,
   * `PoktPerRelay`, and the amount `PoktAmount()` reports.
   */
  datatype Transaction = Transaction(
    hash: string,
    height: nat,
    time: Time,
    txType: string,
    chainID: string,
    numProofs: nat,
    sessionHeight: nat,
    expireHeight: nat,
    appPubkey: string,
    isConfirmed: bool,
    numRelays: nat,
    resultCode: int,
    poktPerRelay: real,
    poktAmount: int)

  const ZeroTransaction: Transaction := Transaction("", 0, ZeroTime, "", "", 0, 0, 0, "", false, 0, 0, 0.0, 0)

  /** A node as the service reports it; `latestBlockTime` is the zero time when unknown. */
  datatype Node = Node(
    address: string,
    balance: nat,
    stakedBalance: string,
    isJailed: bool,
    chains: seq<Chains.Chain>,
    isSynced: bool,
    latestBlockHeight: nat,
    latestBlockTime: Time)

  datatype DayOfWeek = DayOfWeek(name: string, proofs: nat)

  datatype MonthlyReward = MonthlyReward(
    year: nat,
    month: Month,
    totalProofs: nat,
    avgSecsBetweenRewards: real,
    totalSecsBetweenRewards: int,
    daysOfWeek: map<int, DayOfWeek>,
    transactions: seq<Transaction>)

  function Amount(t: Transaction): int {
    t.poktAmount
  }

  /** The amount a transaction adds to its month: its own if confirmed, 0 otherwise. */
  function ConfirmedAmount(t: Transaction): int {
    if t.isConfirmed then t.poktAmount else 0
  }

  predicate Confirmed(t: Transaction) {
    t.isConfirmed
  }

  /** `MonthlyReward.PoktAmount`: the amounts of the confirmed transactions, summed in order. */
  function PoktAmount(txs: seq<Transaction>): (total: int)
    ensures total == Seqs.Sum(Seqs.Filter(txs, Confirmed), Amount)
    decreases |txs|
  {
    if |txs| == 0 then 0
    else
      var t := txs[|txs| - 1];
      Seqs.SumConcat(Seqs.Filter(txs[..|txs| - 1], Confirmed), if t.isConfirmed then [t] else [], Amount);
      PoktAmount(txs[..|txs| - 1]) + (if t.isConfirmed then t.poktAmount else 0)
  }

  /** A month without transactions has amount 0. */
  lemma PoktAmountEmpty()
    ensures PoktAmount([]) == 0
  {
  }

  /** Appending a transaction adds its amount if it is confirmed and nothing otherwise. */
  lemma PoktAmountAppend(txs: seq<Transaction>, t: Transaction)
    ensures PoktAmount(txs + [t]) == PoktAmount(txs) + (if t.isConfirmed then t.poktAmount else 0)
  {
    assert (txs + [t])[..|txs|] == txs;
  }

  /** The amount does not depend on the order of the transactions. */
  lemma PoktAmountPermutation(a: seq<Transaction>, b: seq<Transaction>)
    requires multiset(a) == multiset(b)
    ensures PoktAmount(a) == PoktAmount(b)
  {
    PoktAmountIsSum(a);
    PoktAmountIsSum(b);
    Seqs.SumPermutation(a, b, ConfirmedAmount);
  }

  lemma {:induction false} PoktAmountIsSum(txs: seq<Transaction>)
    ensures PoktAmount(txs) == Seqs.Sum(txs, ConfirmedAmount)
    decreases |txs|
  {
    if |txs| != 0 {
      PoktAmountIsSum(txs[..|txs| - 1]);
    }
  }
}
