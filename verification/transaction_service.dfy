/**
 * The indexing service's transaction service: a block's transactions read
 * from the provider 10000 per page and converted to the indexer's records.
 */
module TransactionService {
  import opened Wrappers
  import opened Text
  import opened IndexingPocket
  import opened Paging

  const PerPage := 10000

  /**
   * A transaction message as decoded JSON: the string fields by dotted path
   * (a field that is absent reads as "", as Go's zero value) and the list of
   * staked chains.
   */
  datatype RawMsg = RawMsg(fields: map<string, string>, chains: seq<string>)

  function Field(m: RawMsg, path: string): (v: string)
    ensures path !in m.fields ==> v == ""
  {
    if path in m.fields then m.fields[path] else ""
  }

  /** A transaction as the provider reports it; fee amounts are decimal text. */
  datatype RawTx = RawTx(hash: string, height: int, messageType: string, signer: string, memo: string,
                         fees: seq<string>, msg: RawMsg)

  datatype TxPage = TxPage(txs: seq<RawTx>, totalTxs: int)

  /** `decodeClaimMessage`: four decimal ints, read in this order; the evidence type is cut to int8. */
  function DecodeClaim(m: RawMsg): (r: Result<TxClaim>)
    ensures r.Ok? <==> (Atoi(Field(m, "value.header.session_height")).Ok? && Atoi(Field(m, "value.total_proofs")).Ok?
      && Atoi(Field(m, "value.evidence_type")).Ok? && Atoi(Field(m, "value.expiration_height")).Ok?)
    ensures r.Ok? ==> r.value == TxClaim(Field(m, "value.header.chain"), Field(m, "value.header.app_public_key"),
      ToUint64(Atoi(Field(m, "value.header.session_height")).value), ToUint64(Atoi(Field(m, "value.total_proofs")).value),
      ToInt8(Atoi(Field(m, "value.evidence_type")).value), ToUint64(Atoi(Field(m, "value.expiration_height")).value))
  {
    match Atoi(Field(m, "value.header.session_height"))
    case Err(e) => Err("decodeClaimMessage: sessionHeight: " + e)
    case Ok(sessionHeight) =>
      match Atoi(Field(m, "value.total_proofs"))
      case Err(e) => Err("decodeClaimMessage: totalProofs: " + e)
      case Ok(totalProofs) =>
        match Atoi(Field(m, "value.evidence_type"))
        case Err(e) => Err("decodeClaimMessage: evidenceType: " + e)
        case Ok(evidenceType) =>
          match Atoi(Field(m, "value.expiration_height"))
          case Err(e) => Err("decodeClaimMessage: expirationHeight: " + e)
          case Ok(expirationHeight) =>
            Ok(TxClaim(Field(m, "value.header.chain"), Field(m, "value.header.app_public_key"),
              ToUint64(sessionHeight), ToUint64(totalProofs), ToInt8(evidenceType), ToUint64(expirationHeight)))
  }

  /** An evidence type of 200 does not fit in int8 and is stored as -56. */
  lemma EvidenceTypeTruncated(m: RawMsg, session: nat, proofs: nat, expiration: nat)
    requires session < Pow63 && proofs < Pow63 && expiration < Pow63
    requires Field(m, "value.header.session_height") == DecimalString(session)
    requires Field(m, "value.total_proofs") == DecimalString(proofs)
    requires Field(m, "value.evidence_type") == DecimalString(200)
    requires Field(m, "value.expiration_height") == DecimalString(expiration)
    ensures DecodeClaim(m).Ok? && DecodeClaim(m).value.evidenceType == -56
    ensures DecodeClaim(m).value.sessionHeight == session && DecodeClaim(m).value.totalProofs == proofs
  {
    AtoiDecimal(session);
    AtoiDecimal(proofs);
    AtoiDecimal(200);
    AtoiDecimal(expiration);
  }

  /** `decodeProofMessage`: the session height must be a decimal int. */
  function DecodeProof(m: RawMsg): (r: Result<TxProof>)
    ensures r.Ok? <==> Atoi(Field(m, "value.leaf.value.session_block_height")).Ok?
    ensures r.Ok? ==> r.value == TxProof(Field(m, "value.leaf.value.aat.app_pub_key"), Field(m, "value.leaf.value.aat.client_pub_key"),
      Field(m, "value.leaf.value.servicer_pub_key"), Field(m, "value.leaf.value.blockchain"),
      Field(m, "value.leaf.value.request_hash"), ToUint64(Atoi(Field(m, "value.leaf.value.session_block_height")).value))
  {
    match Atoi(Field(m, "value.leaf.value.session_block_height"))
    case Err(e) => Err("decodeProofMessage: " + e)
    case Ok(h) =>
      Ok(TxProof(Field(m, "value.leaf.value.aat.app_pub_key"), Field(m, "value.leaf.value.aat.client_pub_key"),
        Field(m, "value.leaf.value.servicer_pub_key"), Field(m, "value.leaf.value.blockchain"),
        Field(m, "value.leaf.value.request_hash"), ToUint64(h)))
  }

  /** `decodeStakeMessage`: the staked amount must be a decimal int. */
  function DecodeStake(m: RawMsg): (r: Result<TxStake>)
    ensures r.Ok? <==> Atoi(Field(m, "value.value")).Ok?
    ensures r.Ok? ==> r.value == TxStake(ToUint64(Atoi(Field(m, "value.value")).value), m.chains,
      Field(m, "value.public_key.type"), Field(m, "value.public_key.value"), Field(m, "value.service_url"))
  {
    match Atoi(Field(m, "value.value"))
    case Err(e) => Err("decodeStakeMessage: " + e)
    case Ok(a) =>
      Ok(TxStake(ToUint64(a), m.chains, Field(m, "value.public_key.type"), Field(m, "value.public_key.value"),
        Field(m, "value.service_url")))
  }

  /** The fee: 0 without fee entries, otherwise the first entry's amount as a decimal int. */
  function Fee(fees: seq<string>): (r: Result<nat>)
    ensures |fees| == 0 ==> r == Ok(0)
    ensures 0 < |fees| ==> (r.Ok? <==> Atoi(fees[0]).Ok?)
    ensures 0 < |fees| && r.Ok? ==> r.value == ToUint64(Atoi(fees[0]).value)
  {
    if |fees| == 0 then Ok(0)
    else match Atoi(fees[0])
      case Err(e) => Err("BlockTransactions: decoding fee: " + e)
      case Ok(f) => Ok(ToUint64(f))
  }

  /**
   * One transaction: the common fields are copied, and only the sub-record
   * of the transaction's own type is filled; only a send sets the recipient
   * and the amount.
   */
  function ConvertTx(t: RawTx): (r: Result<Transaction>)
    ensures r.Ok? ==> Fee(t.fees).Ok? && r.value.fee == Fee(t.fees).value
    ensures r.Ok? ==> (r.value.hash == t.hash && r.value.height == ToUint64(t.height) && r.value.txType == t.messageType
      && r.value.fromAddress == t.signer && r.value.memo == t.memo)
    ensures r.Ok? && t.messageType != TxTypeSend ==> r.value.toAddress == "" && r.value.amount == 0
    ensures r.Ok? && t.messageType != TxTypeClaim ==> r.value.claim == ZeroClaim
    ensures r.Ok? && t.messageType != TxTypeProof ==> r.value.proof == ZeroProof
    ensures r.Ok? && t.messageType != TxTypeStake ==> r.value.stake == ZeroStake
    ensures r.Ok? && t.messageType == TxTypeClaim ==> DecodeClaim(t.msg) == Ok(r.value.claim)
    ensures r.Ok? && t.messageType == TxTypeProof ==> DecodeProof(t.msg) == Ok(r.value.proof)
    ensures r.Ok? && t.messageType == TxTypeStake ==> DecodeStake(t.msg) == Ok(r.value.stake)
    ensures r.Ok? && t.messageType == TxTypeSend ==> (Atoi(Field(t.msg, "value.amount")).Ok?
      && r.value.amount == ToUint64(Atoi(Field(t.msg, "value.amount")).value) && r.value.toAddress == Field(t.msg, "value.to_address"))
    ensures r.Err? <==> (Fee(t.fees).Err?
      || (t.messageType == TxTypeClaim && DecodeClaim(t.msg).Err?)
      || (t.messageType == TxTypeProof && DecodeProof(t.msg).Err?)
      || (t.messageType == TxTypeStake && DecodeStake(t.msg).Err?)
      || (t.messageType == TxTypeSend && Atoi(Field(t.msg, "value.amount")).Err?))
  {
    match Fee(t.fees)
    case Err(e) => Err(e)
    case Ok(fee) =>
      var base := Transaction(t.hash, ToUint64(t.height), t.messageType, fee, t.signer, "", 0, t.memo, ZeroClaim, ZeroProof, ZeroStake);
      if t.messageType == TxTypeClaim then
        match DecodeClaim(t.msg)
        case Err(e) => Err("BlockTransactions: " + e)
        case Ok(c) => Ok(base.(claim := c))
      else if t.messageType == TxTypeProof then
        match DecodeProof(t.msg)
        case Err(e) => Err("BlockTransactions: " + e)
        case Ok(p) => Ok(base.(proof := p))
      else if t.messageType == TxTypeStake then
        match DecodeStake(t.msg)
        case Err(e) => Err("BlockTransactions: " + e)
        case Ok(s) => Ok(base.(stake := s))
      else if t.messageType == TxTypeSend then
        match Atoi(Field(t.msg, "value.amount"))
        case Err(e) => Err("BlockTransactions: amount: " + e)
        case Ok(a) => Ok(base.(toAddress := Field(t.msg, "value.to_address"), amount := ToUint64(a)))
      else Ok(base)
  }

  /** A page's transactions in order, or the first conversion error. */
  function ConvertTxs(ts: seq<RawTx>): (r: Result<seq<Transaction>>)
    ensures r.Ok? <==> forall i :: 0 <= i < |ts| ==> ConvertTx(ts[i]).Ok?
    ensures r.Ok? ==> |r.value| == |ts| && forall i :: 0 <= i < |ts| ==> r.value[i] == ConvertTx(ts[i]).value
  {
    MapAll(ts, ConvertTx)
  }

  /**
   * One round of the loop: page p is fetched and its transactions converted;
   * the loop stops after it once the `have` transactions collected before it
   * plus its own reach the total the page reports.
   */
  function ReadTxPage(provider: int -> Result<TxPage>, p: int, have: nat): (r: Result<Page<Transaction>>)
    ensures provider(p).Err? ==> r == Err("BlockTransactions: " + provider(p).msg)
    ensures provider(p).Ok? ==> (r.Ok? <==> ConvertTxs(provider(p).value.txs).Ok?)
    ensures r.Ok? ==> (provider(p).Ok? && r.value.items == ConvertTxs(provider(p).value.txs).value
      && (r.value.stop <==> have + |r.value.items| >= provider(p).value.totalTxs))
  {
    match provider(p)
    case Err(e) => Err("BlockTransactions: " + e)
    case Ok(resp) =>
      match ConvertTxs(resp.txs)
      case Err(e) => Err(e)
      case Ok(ts) => Ok(Page(ts, have + |ts| >= resp.totalTxs))
  }

  function Reader(provider: int -> Result<TxPage>): (int, nat) -> Result<Page<Transaction>> {
    (p: int, have: nat) => ReadTxPage(provider, p, have)
  }

  /** The page the loop asks for in round i: the previous page plus i, starting from 1. */
  function PageAt(i: nat): (p: int)
    ensures p >= 1 + i
  {
    if i == 0 then 1 else PageAt(i - 1) + i
  }

  /**
   * `BlockTransactions(height)` as written: round i asks for page PageAt(i),
   * that is pages 1, 2, 4, 7, …; a finished walk holds the transactions of
   * the pages it read, in order, and stopped at the first page that brought
   * the count to the total.
   */
  function BlockTransactions(provider: int -> Result<TxPage>, fuel: nat): (w: Walk<Transaction>)
    ensures |w.requested| <= fuel
    ensures forall k :: 0 <= k < |w.requested| ==> w.requested[k] == PageAt(k)
    ensures w.status.OutOfFuel? ==> |w.requested| == fuel && Continues(Reader(provider), w.requested, 0)
    ensures w.status.Done? ==> (StopsAtLast(Reader(provider), w.requested, 0)
      && ItemsOf(Reader(provider), w.requested, 0) == Ok(w.status.items))
    ensures w.status.Failed? ==> 0 < |w.requested| && ItemsOf(Reader(provider), w.requested, 0) == Err(w.status.msg)
  {
    Run(Reader(provider), PageAt, 0, 0, fuel)
  }

  /** A finished walk has collected at least the total the last page reports. */
  lemma ReachesTotal(provider: int -> Result<TxPage>, w: Walk<Transaction>)
    requires w.status.Done? && StopsAtLast(Reader(provider), w.requested, 0)
    requires ItemsOf(Reader(provider), w.requested, 0) == Ok(w.status.items)
    ensures 0 < |w.requested| && provider(w.requested[|w.requested| - 1]).Ok?
    ensures |w.status.items| >= provider(w.requested[|w.requested| - 1]).value.totalTxs
  {
    LastPage(Reader(provider), w.requested, 0, w.status.items);
  }

  /** The page of round i is 1 + i(i+1)/2. */
  lemma {:induction false} PageAtClosedForm(i: nat)
    ensures 2 * PageAt(i) == 2 + i * (i + 1)
  {
    if i > 0 {
      PageAtClosedForm(i - 1);
      assert (i - 1) * i + 2 * i == i * (i + 1);
    }
  }

  /** Rounds ask for ever larger pages. */
  lemma {:induction false} PageAtGrows(i: nat, j: nat)
    requires i < j
    ensures PageAt(i) < PageAt(j)
    decreases j
  {
    if i < j - 1 {
      PageAtGrows(i, j - 1);
    }
  }

  /** Page 3 is never asked for: the third round already asks for page 4. */
  lemma PageThreeNeverRequested(provider: int -> Result<TxPage>, fuel: nat)
    ensures 3 !in BlockTransactions(provider, fuel).requested
    ensures PageAt(2) == 4
  {
    var w := BlockTransactions(provider, fuel);
    assert PageAt(1) == 2 && PageAt(2) == 4;
    forall k | 0 <= k < |w.requested| ensures w.requested[k] != 3 {
      if k > 2 {
        PageAtGrows(2, k);
      }
    }
  }

  /**
   * The corrected `BlockTransactions`: round i asks for page i + 1, as the
   * node service pages, so every page up to the last one read is asked for.
   */
  function BlockTransactionsCorrected(provider: int -> Result<TxPage>, fuel: nat): (w: Walk<Transaction>)
    ensures |w.requested| <= fuel
    ensures forall k :: 0 <= k < |w.requested| ==> w.requested[k] == k + 1
    ensures w.status.OutOfFuel? ==> |w.requested| == fuel && Continues(Reader(provider), w.requested, 0)
    ensures w.status.Done? ==> (StopsAtLast(Reader(provider), w.requested, 0)
      && ItemsOf(Reader(provider), w.requested, 0) == Ok(w.status.items))
    ensures w.status.Failed? ==> 0 < |w.requested| && ItemsOf(Reader(provider), w.requested, 0) == Err(w.status.msg)
  {
    Run(Reader(provider), Consecutive, 0, 0, fuel)
  }
}
