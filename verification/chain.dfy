/** The table of relay chains the monitoring service knows, and lookup by chain ID. */
module Chains {
  import opened Wrappers

  datatype Chain = Chain(id: string, name: string, portalPrefix: string, isMonetized: bool)

  /** Go's `Chain{}`. */
  const ZeroChain: Chain := Chain("", "", "", false)

  // `allChains`, in source order, written as three literals joined by map union
  // (the keys of the three parts are disjoint).
  const ChainsA: map<string, Chain> := map[
    "0029" := Chain("0029", "Algorand", "algorand-mainnet", true),
    "000D" := Chain("000D", "Algorand Archival", "algorand-archival", false),
    "0045" := Chain("0045", "Algorand Testnet", "algorand-testnet", false),
    "0A45" := Chain("0A45", "Algorand TestNet Archival", "algorand-testnet-archival", false),
    "0030" := Chain("0030", "Arweave", "arweave-mainnet", false),
    "0003" := Chain("0003", "Avalanche", "avax-mainnet", true),
    "00A3" := Chain("00A3", "Avalanche Archival", "avax-archival", true),
    "000E" := Chain("000E", "Avalanche Fuji", "avax-fuji", false),
    "0004" := Chain("0004", "Binance Smart Chain", "bsc-mainnet", true),
    "0010" := Chain("0010", "Binance Smart Chain Archival", "bsc-archival", true),
    "0011" := Chain("0011", "Binance Smart Chain Testnet", "bsc-testnet", false),
    "0012" := Chain("0012", "Binance Smart Chain Testnet Archival", "bsc-testnet-archival", false),
    "0002" := Chain("0002", "Bitcoin", "btc-mainnet", false),
    "0048" := Chain("0048", "Boba", "boba-mainnet", true),
    "03DF" := Chain("03DF", "DFKchain Subnet", "dfk-mainnet", true)
  ]

  const ChainsB: map<string, Chain> := map[
    "0021" := Chain("0021", "ETH", "eth-mainnet", true),
    "0022" := Chain("0022", "Ethereum Archival", "eth-archival", true),
    "0028" := Chain("0028", "Ethereum Archival Trace", "eth-archival-trace", true),
    "0026" := Chain("0026", "Ethereum Goerli", "eth-goerli", true),
    "0024" := Chain("0024", "Ethereum Kovan", "poa-kovan", true),
    "0025" := Chain("0025", "Ethereum Rinkeby", "eth-rinkeby", true),
    "0023" := Chain("0023", "Ethereum Ropsten", "eth-ropsten", true),
    "0046" := Chain("0046", "Evmos", "evmos-mainnet", false),
    "0049" := Chain("0049", "Fantom", "fantom-mainnet", true),
    "0005" := Chain("0005", "FUSE", "fuse-mainnet", true),
    "000A" := Chain("000A", "FUSE Archival", "fuse-archival", true),
    "0027" := Chain("0027", "Gnosis Chain", "gnosischain-mainnet", true),
    "000C" := Chain("000C", "Gnosis Chain Archival", "gnosischain-archival", true),
    "0040" := Chain("0040", "Harmony Shard 0", "harmony-0", true),
    "0A40" := Chain("0A40", "Harmony Shard 0 Archival", "harmony-0-archival", false)
  ]

  const ChainsC: map<string, Chain> := map[
    "0041" := Chain("0041", "Harmony Shard 1", "harmony-1", false),
    "0A41" := Chain("0A41", "Harmony Shard 1 Archival", "harmony-1-archival", false),
    "0042" := Chain("0042", "Harmony Shard 2", "harmony-2", false),
    "0A42" := Chain("0A42", "Harmony Shard 2 Archival", "harmony-2-archival", false),
    "0043" := Chain("0043", "Harmony Shard 3", "harmony-3", false),
    "0A43" := Chain("0A43", "Harmony Shard 3 Archival", "harmony-3-archival", false),
    "0044" := Chain("0044", "IoTeX", "iotex-mainnet", true),
    "0047" := Chain("0047", "OKExChain", "oec-mainnet", true),
    "0001" := Chain("0001", "Pocket Network", "mainnet", true),
    "0009" := Chain("0009", "Polygon", "poly-mainnet", true),
    "000B" := Chain("000B", "Polygon Archival", "poly-archival", true),
    "000F" := Chain("000F", "Polygon Mumbai", "poly-mumbai", false),
    "00AF" := Chain("00AF", "Polygon Mumbai Archival", "poly-mumbai-archival", false),
    "0006" := Chain("0006", "Solana", "sol-mainnet", true),
    "0031" := Chain("0031", "Solana Testnet", "sol-testnet", false)
  ]

  const AllChains: map<string, Chain> := ChainsA + ChainsB + ChainsC

  /**
   * `ChainFromID`: the table entry for the ID, or the zero chain together
   * with an error for an ID the table does not hold.
   */
  function ChainFromID(id: string): (r: (Chain, Option<string>))
    ensures r.1.None? <==> id in AllChains
    ensures r.1.None? ==> r.0 == AllChains[id] && r.0.id == id
    ensures r.1.Some? ==> r.0 == ZeroChain
  {
    TableKeysAreIDs();
    if id in AllChains then (AllChains[id], None)
    else (ZeroChain, Some("ChainFromID: unknown chain " + id))
  }

  /** Every entry of the table is stored under its own ID. */
  lemma TableKeysAreIDs()
    ensures forall id :: id in AllChains ==> AllChains[id].id == id
  {
    KeysAreIDsA();
    KeysAreIDsB();
    KeysAreIDsC();
  }

  lemma KeysAreIDsA()
    ensures forall id :: id in ChainsA ==> ChainsA[id].id == id
  {
  }

  lemma KeysAreIDsB()
    ensures forall id :: id in ChainsB ==> ChainsB[id].id == id
  {
  }

  lemma KeysAreIDsC()
    ensures forall id :: id in ChainsC ==> ChainsC[id].id == id
  {
  }

  /** "000D" resolves to Algorand Archival. */
  lemma LookupAlgorandArchival()
    ensures ChainFromID("000D") == (Chain("000D", "Algorand Archival", "algorand-archival", false), None)
  {
    AlgorandInA();
    AlgorandOnlyInA();
    UnionAtFirst(ChainsA, ChainsB, ChainsC, "000D");
  }

  lemma AlgorandInA()
    ensures "000D" in ChainsA && ChainsA["000D"] == Chain("000D", "Algorand Archival", "algorand-archival", false)
  {
  }

  lemma AlgorandOnlyInA()
    ensures "000D" !in ChainsB && "000D" !in ChainsC
  {
  }

  /** "0001" resolves to Pocket Network. */
  lemma LookupPocketNetwork()
    ensures ChainFromID("0001") == (Chain("0001", "Pocket Network", "mainnet", true), None)
  {
    PocketInC();
    UnionAtLast(ChainsA, ChainsB, ChainsC, "0001");
  }

  lemma PocketInC()
    ensures "0001" in ChainsC && ChainsC["0001"] == Chain("0001", "Pocket Network", "mainnet", true)
  {
  }

  /** Lookup is exact and case-sensitive: other spellings of a listed ID are unknown. */
  lemma LookupIsExact()
    ensures ChainFromID("000d").0 == ZeroChain && ChainFromID("000d").1.Some?
  {
    UpperHexKeysA();
    UpperHexKeysB();
    UpperHexKeysC();
    assert "000d"[3] == 'd' && 'd' !in "0123456789ABCDEF";
    assert !UpperHex("000d");
    UnionAbsent(ChainsA, ChainsB, ChainsC, "000d");
  }

  lemma UnionAbsent<K, V>(a: map<K, V>, b: map<K, V>, c: map<K, V>, k: K)
    requires k !in a && k !in b && k !in c
    ensures k !in a + b + c
  {
  }

  lemma UnionAtFirst<K, V>(a: map<K, V>, b: map<K, V>, c: map<K, V>, k: K)
    requires k in a && k !in b && k !in c
    ensures k in a + b + c && (a + b + c)[k] == a[k]
  {
  }

  lemma UnionAtLast<K, V>(a: map<K, V>, b: map<K, V>, c: map<K, V>, k: K)
    requires k in c
    ensures k in a + b + c && (a + b + c)[k] == c[k]
  {
  }

  /** The IDs are written with upper-case hexadecimal digits. */
  predicate UpperHex(id: string) {
    forall i :: 0 <= i < |id| ==> id[i] in "0123456789ABCDEF"
  }

  lemma UpperHexKeysA()
    ensures forall id :: id in ChainsA ==> UpperHex(id)
  {
  }

  lemma UpperHexKeysB()
    ensures forall id :: id in ChainsB ==> UpperHex(id)
  {
  }

  lemma UpperHexKeysC()
    ensures forall id :: id in ChainsC ==> UpperHex(id)
  {
  }
}
