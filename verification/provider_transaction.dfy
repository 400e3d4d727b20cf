/** The provider's conversion of a node's transaction response into the service's transaction record. */
module ProviderTransaction {
  import opened Wrappers
  import opened Text

  /** The fields of the RPC response the conversion reads. */
  datatype TransactionResponse = TransactionResponse(hash: string, height: real, msgType: string, chain: string, totalProofs: string)

  /** The record the conversion produces. */
  datatype ProviderTx = ProviderTx(hash: string, height: nat, txType: string, chainID: string, numProofs: nat)

  const ZeroProviderTx: ProviderTx := ProviderTx("", 0, "", "", 0)

  /**
   * Go's `uint(f)` for a JSON height: the integer part. Negative heights,
   * whose conversion Go leaves to the platform, are taken as 0 here.
   */
  function HeightOf(h: real): (n: nat)
    ensures h >= 0.0 ==> n as real <= h < n as real + 1.0
  {
    if h >= 0.0 then h.Floor else 0
  }

  /**
   * `transactionResponse.Transaction`: an empty `total_proofs` means 0 proofs,
   * anything else must be a decimal uint32; a parse failure gives the zero
   * record and an error.
   */
  function ToTransaction(t: TransactionResponse): (r: (ProviderTx, Option<string>))
    ensures r.1.None? <==> t.totalProofs == "" || (AllDigits(t.totalProofs) && DigitsValue(t.totalProofs) < Pow32)
    ensures r.1.Some? ==> r.0 == ZeroProviderTx
    ensures r.1.None? ==> (r.0.hash == t.hash && r.0.txType == t.msgType && r.0.chainID == t.chain
      && r.0.height == HeightOf(t.height))
    ensures r.1.None? ==> r.0.numProofs == if t.totalProofs == "" then 0 else DigitsValue(t.totalProofs)
  {
    ParseUintSpec(t.totalProofs, Pow32);
    if t.totalProofs == "" then (ProviderTx(t.hash, HeightOf(t.height), t.msgType, t.chain, 0), None)
    else match ParseUint(t.totalProofs, Pow32)
      case Err(e) => (ZeroProviderTx, Some("transactionResponse.Transaction: " + e))
      case Ok(n) => (ProviderTx(t.hash, HeightOf(t.height), t.msgType, t.chain, n), None)
  }

  /** `total_proofs` written in canonical decimal round-trips below 2^32 and is rejected from 2^32 on. */
  lemma TotalProofsRoundTrip(t: TransactionResponse, n: nat)
    requires t.totalProofs == DecimalString(n)
    ensures n < Pow32 ==> ToTransaction(t).1.None? && ToTransaction(t).0.numProofs == n
    ensures n >= Pow32 ==> ToTransaction(t) == (ZeroProviderTx, ToTransaction(t).1) && ToTransaction(t).1.Some?
  {
  }

  /** A signed count is not accepted: "-1" is an error. */
  lemma NegativeProofsRejected(t: TransactionResponse)
    requires t.totalProofs == "-1"
    ensures ToTransaction(t).1.Some?
  {
    assert !IsDigit('-');
    assert t.totalProofs[0] == '-';
  }
}
