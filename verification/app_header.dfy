/**
 * The application header: which address it shows, when it asks the
 * monitoring service for data, and how many relays are still pending.
 */
module AppHeader {
  import opened Wrappers
  import opened UiTypes
  import Seqs

  /** The address used for this render, and the address persisted as current, if any. */
  datatype Resolution = Resolution(address: Option<string>, persist: Option<string>)

  /**
   * The URL's address when it is non-empty; otherwise the stored current
   * address when that is non-empty; otherwise the URL value is kept and the
   * first saved address is persisted as current for the next render.
   */
  function ResolveAddress(urlParam: Option<string>, current: string, saved: Option<seq<string>>): (r: Resolution)
    ensures urlParam.Some? && urlParam.value != "" ==> r == Resolution(urlParam, None)
    ensures (urlParam == None || urlParam == Some("")) && current != "" ==> r == Resolution(Some(current), None)
    ensures r.persist.Some? <==> (urlParam == None || urlParam == Some("")) && current == "" && saved.Some? && |saved.value| > 0
    ensures r.persist.Some? ==> r.persist.value == saved.value[0] && r.address == urlParam
  {
    if urlParam == Some("") || urlParam == None then
      if current != "" then Resolution(Some(current), None)
      else if saved.Some? && |saved.value| > 0 then Resolution(urlParam, Some(saved.value[0]))
      else Resolution(urlParam, None)
    else Resolution(urlParam, None)
  }

  /** Once the first saved address has been persisted, the next render shows it. */
  lemma PersistedAddressIsShownNext(urlParam: Option<string>, saved: Option<seq<string>>)
    requires urlParam == None || urlParam == Some("")
    requires saved.Some? && |saved.value| > 0 && saved.value[0] != ""
    ensures ResolveAddress(urlParam, "", saved).persist == Some(saved.value[0])
    ensures ResolveAddress(urlParam, saved.value[0], saved) == Resolution(Some(saved.value[0]), None)
  {
  }

  /** `if(!address) return`: the address the balance is requested for, if any. */
  function BalanceRequest(address: Option<string>): (r: Option<string>)
    ensures r.Some? <==> address.Some? && address.value != ""
    ensures r.Some? ==> r == address
  {
    match address
    case Some(a) => if a == "" then None else Some(a)
    case None => None
  }

  /** `if(!node.address) return`: the node refreshed periodically, if any. */
  function NodeDataRequest(node: CryptoNode): (r: Option<string>)
    ensures r.Some? <==> node.address != ""
    ensures r.Some? ==> r.value == node.address
  {
    BalanceRequest(Some(node.address))
  }

  /** A non-empty URL address is the one whose balance is requested. */
  lemma UrlAddressIsRequested(a: string, current: string, saved: Option<seq<string>>)
    requires a != ""
    ensures BalanceRequest(ResolveAddress(Some(a), current, saved).address) == Some(a)
  {
  }

  /** A transaction still pending at the current height: unconfirmed and not yet expired. */
  predicate Pending(currentHeight: int, t: RewardTx) {
    !t.isConfirmed && t.expireHeight > currentHeight
  }

  function Relays(t: RewardTx): int {
    t.numRelays
  }

  /** The pending test for a fixed height, as a filter. */
  function IsPending(currentHeight: int): RewardTx -> bool {
    t => Pending(currentHeight, t)
  }

  /**
   * The pending relay count: over the first month's transactions, the relays
   * of those still pending. Without any month the count is not updated.
   */
  function PendingRelays(rewards: seq<MonthReward>, currentHeight: int): (r: Option<int>)
    ensures r.Some? <==> |rewards| > 0
    ensures r.Some? ==> r.value == Seqs.Sum(Seqs.Filter(rewards[0].transactions, IsPending(currentHeight)), Relays)
  {
    if |rewards| == 0 then None else Some(PendingSum(rewards[0].transactions, currentHeight))
  }

  /** The loop of the effect: relays added up transaction by transaction when pending. */
  function PendingSum(txs: seq<RewardTx>, currentHeight: int): (n: int)
    ensures n == Seqs.Sum(Seqs.Filter(txs, IsPending(currentHeight)), Relays)
    decreases |txs|
  {
    if |txs| == 0 then 0
    else
      var t := txs[|txs| - 1];
      Seqs.SumConcat(Seqs.Filter(txs[..|txs| - 1], IsPending(currentHeight)), if Pending(currentHeight, t) then [t] else [], Relays);
      PendingSum(txs[..|txs| - 1], currentHeight) + (if Pending(currentHeight, t) then t.numRelays else 0)
  }

  lemma {:induction false} PendingSumConcat(a: seq<RewardTx>, b: seq<RewardTx>, h: int)
    ensures PendingSum(a + b, h) == PendingSum(a, h) + PendingSum(b, h)
    decreases |b|
  {
    if |b| == 0 {
      assert a + b == a;
    } else {
      assert (a + b)[..|a + b| - 1] == a + b[..|b| - 1];
      PendingSumConcat(a, b[..|b| - 1], h);
    }
  }

  /** As the network height grows, transactions expire, so the pending count never grows. */
  lemma {:induction false} PendingShrinksWithHeight(txs: seq<RewardTx>, h1: int, h2: int)
    requires h1 <= h2
    requires forall t :: t in txs ==> t.numRelays >= 0
    ensures PendingSum(txs, h2) <= PendingSum(txs, h1)
    decreases |txs|
  {
    if |txs| != 0 {
      assert txs[|txs| - 1] in txs;
      PendingShrinksWithHeight(txs[..|txs| - 1], h1, h2);
    }
  }

  /** Confirming a transaction removes exactly its relays from the pending count, if it was pending. */
  lemma ConfirmingRemovesRelays(a: seq<RewardTx>, t: RewardTx, b: seq<RewardTx>, h: int)
    ensures PendingSum(a + [t.(isConfirmed := true)] + b, h)
      == PendingSum(a + [t] + b, h) - (if Pending(h, t) then t.numRelays else 0)
  {
    PendingSumConcat(a + [t.(isConfirmed := true)], b, h);
    PendingSumConcat(a + [t], b, h);
    PendingSumConcat(a, [t.(isConfirmed := true)], h);
    PendingSumConcat(a, [t], h);
    assert [t][..0] == [] && [t.(isConfirmed := true)][..0] == [];
  }
}
