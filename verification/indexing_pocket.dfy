/** The indexing service's records: blocks, transactions with their typed sub-records, nodes and parameters. */
module IndexingPocket {

  const TxTypeSend := "send"
  const TxTypeClaim := "claim"
  const TxTypeProof := "proof"
  const TxTypeStake := "stake_validator"

  /** Times are Unix seconds. */
  datatype Block = Block(id: string, height: int, time: int, proposerAddress: string, numTxs: int)

  const ZeroBlock := Block("", 0, 0, "", 0)

  /** `int8` fits in [-128, 128). */
  type Int8 = i: int | -128 <= i < 128

  datatype TxClaim = TxClaim(chain: string, appPublicKey: string, sessionHeight: nat, totalProofs: nat, evidenceType: Int8, expirationHeight: nat)

  datatype TxProof = TxProof(appPublicKey: string, clientPublicKey: string, servicerPublicKey: string, chain: string, requestHash: string, sessionHeight: nat)

  datatype TxStake = TxStake(amount: nat, chains: seq<string>, publicKeyType: string, publicKey: string, serviceUrl: string)

  const ZeroClaim := TxClaim("", "", 0, 0, 0, 0)
  const ZeroProof := TxProof("", "", "", "", "", 0)
  const ZeroStake := TxStake(0, [], "", "", "")

  /** Unsigned fields (`uint`, `uint64`) hold values below 2^64. */
  datatype Transaction = Transaction(
    hash: string, height: nat, txType: string, fee: nat, fromAddress: string,
    toAddress: string, amount: nat, memo: string,
    claim: TxClaim, proof: TxProof, stake: TxStake)

  datatype Node = Node(
    address: string, height: nat, publicKey: string, jailed: bool, status: int,
    chains: seq<string>, serviceUrl: string, tokens: nat, unstakingTime: int, outputAddress: string)

  datatype Param = Param(key: string, value: string)

  type ParamsByName = map<string, Param>

  datatype ParamGroups = ParamGroups(
    height: int, appParams: ParamsByName, authParams: ParamsByName, govParams: ParamsByName,
    nodeParams: ParamsByName, pocketParams: ParamsByName)

  const ZeroParamGroups := ParamGroups(0, map[], map[], map[], map[], map[])
}
