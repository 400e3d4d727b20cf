/**
 * The records the dashboard receives from the monitoring service, with the
 * fields its components read. Times are milliseconds since the Unix epoch,
 * as `new Date(t.time).getTime()` yields them; amounts are exact reals.
 */
module UiTypes {
  import opened Wrappers

  /** One reward transaction of a month, as the components use it. */
  datatype RewardTx = RewardTx(
    hash: string,
    height: int,
    time: int,
    txType: string,
    chainID: string,
    numProofs: int,
    isConfirmed: bool,
    amount: real,
    expireHeight: int,
    numRelays: int,
    appPubkey: string)

  /** `relays_by_chain` entries of a month. */
  datatype ChainRelays = ChainRelays(chain: string, name: string, numRelays: int)

  /** One month of rewards. */
  datatype MonthReward = MonthReward(
    year: int,
    month: int,
    numRelays: int,
    poktAmount: real,
    relaysByChain: seq<ChainRelays>,
    transactions: seq<RewardTx>)

  /**
   * The node shown in the header. `latestBlockHeight` is read by the header but
   * is not declared on the node type, so it may be undefined (None).
   */
  datatype CryptoNode = CryptoNode(nodeExists: bool, address: string, isJailed: bool, latestBlockHeight: Option<int>)
}
