/**
 * One row of a month's transaction table: its description, the amount
 * cell, the abbreviated hash and app key, and the confirmation icon.
 */
module RewardTransaction {
  import opened Wrappers
  import opened UiTypes
  import Text
  import Js
  import AppHeader

  const ProofType: string := "pocketcore/proof"

  /** The description: empty for a proof, otherwise the relay count and the chain. */
  function Description(tx: RewardTx): (d: string)
    ensures tx.txType == ProofType ==> d == ""
    ensures tx.txType != ProofType ==> d == Text.IntString(tx.numProofs) + " relays on [" + tx.chainID + "]"
  {
    if tx.txType == ProofType then "" else Text.IntString(tx.numProofs) + " relays on [" + tx.chainID + "]"
  }

  /** The description is empty exactly for proofs. */
  lemma DescriptionEmptyIffProof(tx: RewardTx)
    ensures Description(tx) == "" <==> tx.txType == ProofType
  {
  }

  /** The chain can be read back from the description: it sits between the last " [" and the final "]". */
  lemma ChainReadBack(tx: RewardTx)
    requires tx.txType != ProofType
    ensures var d := Description(tx);
            |d| > |tx.chainID| + 1
            && d[|d| - 1] == ']'
            && d[|d| - |tx.chainID| - 1..|d| - 1] == tx.chainID
  {
  }

  /** The relay count can be read back from the description: the digits before " relays". */
  lemma RelayCountReadBack(tx: RewardTx)
    requires tx.txType != ProofType && 0 <= tx.numProofs < Text.Pow63
    ensures var d := Description(tx);
            var k := |Text.IntString(tx.numProofs)|;
            k + 7 <= |d| && d[k..k + 7] == " relays" && Text.Atoi(d[..k]) == Ok(tx.numProofs)
  {
    var d := Description(tx);
    var k := |Text.IntString(tx.numProofs)|;
    assert d[..k] == Text.DecimalString(tx.numProofs);
    Text.AtoiDecimal(tx.numProofs);
  }

  /**
   * The amount cell: a dash for a proof, otherwise the POKT amount worked out
   * from the relay count (a floating-point product, not modelled).
   */
  datatype AmountCell = Dash | PoktFor(numProofs: int)

  function Amount(tx: RewardTx): (a: AmountCell)
    ensures a == Dash <==> tx.txType == ProofType
    ensures a.PoktFor? ==> a.numProofs == tx.numProofs
  {
    if tx.txType == ProofType then Dash else PoktFor(tx.numProofs)
  }

  /** The amount shows a dash exactly on the rows whose description is empty. */
  lemma DashIffNoDescription(tx: RewardTx)
    ensures Amount(tx) == Dash <==> Description(tx) == ""
  {
    DescriptionEmptyIffProof(tx);
  }

  /** The hash and the app key are each shown as their first 4 and last 2 characters. */
  function ShortLabel(s: string): (shown: string)
    ensures |s| >= 4 ==> shown == s[..4] + "..." + s[|s| - 2..] && |shown| == 9
    ensures 2 <= |s| < 4 ==> shown == s + "..." + s[|s| - 2..]
    ensures |s| < 2 ==> shown == s + "..." + s
  {
    Js.Abbreviate(s, 4, 2)
  }

  datatype Icon = Confirmed | Unconfirmed

  function ConfirmationIcon(tx: RewardTx): (i: Icon)
    ensures i == Confirmed <==> tx.isConfirmed
  {
    if tx.isConfirmed then Confirmed else Unconfirmed
  }

  /** A row showing the confirmed icon never counts towards the header's pending relays. */
  lemma ConfirmedRowNotPending(tx: RewardTx, currentHeight: int)
    ensures ConfirmationIcon(tx) == Confirmed ==> !AppHeader.Pending(currentHeight, tx)
  {
  }
}
