/**
 * The monitoring service's account logic: session keys, parameter lookup at a
 * height, per-transaction enrichment, and the paged collection of an
 * account's claims and proofs. Provider calls are function parameters.
 */
module Service {
  import opened Wrappers
  import opened Text
  import opened Pocket
  import opened Params

  /** `sessionKey`: the session height in decimal, then the app public key, then the chain id. */
  function SessionKey(t: Transaction): (k: string)
    ensures |k| == |DecimalString(t.sessionHeight)| + |t.appPubkey| + |t.chainID|
    ensures k[..|DecimalString(t.sessionHeight)|] == DecimalString(t.sessionHeight)
    ensures k[|k| - |t.chainID|..] == t.chainID
  {
    DecimalString(t.sessionHeight) + t.appPubkey + t.chainID
  }

  /**
   * With public keys and chain ids of fixed widths (as on the network) the key
   * determines the session.
   */
  lemma SessionKeyInjective(a: Transaction, b: Transaction)
    requires |a.appPubkey| == |b.appPubkey| && |a.chainID| == |b.chainID|
    requires SessionKey(a) == SessionKey(b)
    ensures a.sessionHeight == b.sessionHeight && a.appPubkey == b.appPubkey && a.chainID == b.chainID
  {
    var da, db := DecimalString(a.sessionHeight), DecimalString(b.sessionHeight);
    assert |da| == |db|;
    var k := SessionKey(a);
    assert da == k[..|da|] == db;
    DecimalStringInjective(a.sessionHeight, b.sessionHeight);
    assert a.appPubkey == k[|da|..|da| + |a.appPubkey|] == b.appPubkey;
  }

  /** Without that width discipline the concatenation is ambiguous: height 1 with key "23" and height 12 with key "3" collide. */
  lemma SessionKeyAmbiguous(a: Transaction, b: Transaction)
    requires a.sessionHeight == 1 && a.appPubkey == "23"
    requires b.sessionHeight == 12 && b.appPubkey == "3"
    requires a.chainID == b.chainID
    ensures SessionKey(a) == SessionKey(b)
  {
    assert DecimalString(1) == "1" by { assert DigitsValue("1") == 1; CanonicalDigitsUnique(DecimalString(1), "1"); }
    assert DecimalString(12) == "12" by { assert DigitsValue("12") == 12; CanonicalDigitsUnique(DecimalString(12), "12"); }
  }

  /* ---------------- ParamsAtHeight ---------------- */

  const MultiplierKey: string := "pos/RelaysToTokensMultiplier"
  const DaoAllocationKey: string := "pos/DAOAllocation"
  const ProposerPercentageKey: string := "pos/ProposerPercentage"
  const ClaimExpirationKey: string := "pocketcore/ClaimExpiration"

  /**
   * `ParamsAtHeight`. `all` is the provider's answer for the height and
   * `parseFloat` stands for `strconv.ParseFloat(_, 64)`. The three keys of
   * the node group are read from `NodeParams`, the claim expiration from
   * `PocketParams`; DAO allocation and proposer percentage are parsed as int64
   * and truncated to uint8, the claim expiration as uint64.
   */
  function ParamsAtHeight(height: int, all: Result<AllParams>, parseFloat: string -> Option<real>): (r: Result<Params>)
    ensures all.Err? ==> r.Err?
    ensures r.Ok? <==> all.Ok? && RequiredParamsValid(all.value, parseFloat)
    ensures r.Ok? ==>
      var np := all.value.node;
      && Some(r.value.relaysToTokensMultiplier) == parseFloat(Get(np, MultiplierKey).0)
      && r.value.daoAllocation == ToUint8(Atoi(Get(np, DaoAllocationKey).0).value)
      && r.value.proposerPercentage == ToUint8(Atoi(Get(np, ProposerPercentageKey).0).value)
      && r.value.claimExpirationBlocks == ParseUint(Get(all.value.pocket, ClaimExpirationKey).0, Pow64).value
  {
    match all
    case Err(e) => Err("ParamsAtHeight: provider error: " + e)
    case Ok(a) =>
      match Multiplier(a.node, height, parseFloat)
      case Err(e) => Err(e)
      case Ok(multiplier) =>
        match Percentage(a.node, DaoAllocationKey, "pos/DAOAllocation")
        case Err(e) => Err(e)
        case Ok(daoAllocation) =>
          match Percentage(a.node, ProposerPercentageKey, "pos/ProposerCut")
          case Err(e) => Err(e)
          case Ok(proposerPercentage) =>
            match ClaimExpiration(a.pocket)
            case Err(e) => Err(e)
            case Ok(blocks) => Ok(Params(multiplier, daoAllocation, proposerPercentage, blocks))
  }

  /** The relays-to-tokens multiplier, read as a float. */
  function Multiplier(np: ParamGroup, height: int, parseFloat: string -> Option<real>): (r: Result<real>)
    ensures r.Ok? <==> HasKey(np, MultiplierKey) && parseFloat(Get(np, MultiplierKey).0).Some?
    ensures r.Ok? ==> Some(r.value) == parseFloat(Get(np, MultiplierKey).0)
  {
    var (multiplier, ok) := Get(np, MultiplierKey);
    if !ok then Err("ParamsAtHeight: node_params key not found at height " + IntString(height) + " 'pos/RelaysToTokensMultiplier'")
    else match parseFloat(multiplier)
      case None => Err("ParamsAtHeight: failed to parse node_params key 'pos/RelaysToTokensMultiplier'")
      case Some(v) => Ok(v)
  }

  /** A percentage of the node group: parsed as a signed 64-bit integer, then truncated to uint8. */
  function Percentage(np: ParamGroup, key: string, parseName: string): (r: Result<Uint8>)
    ensures r.Ok? <==> HasKey(np, key) && Atoi(Get(np, key).0).Ok?
    ensures r.Ok? ==> r.value == ToUint8(Atoi(Get(np, key).0).value)
  {
    var (v, ok) := Get(np, key);
    if !ok then Err("ParamsAtHeight: node_params key not found '" + key + "'")
    else match Atoi(v)
      case Err(_) => Err("ParamsAtHeight: failed to parse node_params key '" + parseName)
      case Ok(n) => Ok(ToUint8(n))
  }

  /** The claim expiration in blocks, from the pocket group, parsed as uint64. */
  function ClaimExpiration(pp: ParamGroup): (r: Result<nat>)
    ensures r.Ok? <==> HasKey(pp, ClaimExpirationKey) && ParseUint(Get(pp, ClaimExpirationKey).0, Pow64).Ok?
    ensures r.Ok? ==> r.value == ParseUint(Get(pp, ClaimExpirationKey).0, Pow64).value < Pow64
  {
    var (v, ok) := Get(pp, ClaimExpirationKey);
    if !ok then Err("ParamsAtHeight: node_params key not found 'pocketcore/ClaimExpiration'")
    else match ParseUint(v, Pow64)
      case Err(e) => Err("ParamsAtHeight: failed to parse node_params ket 'pocketcore/ClaimExpiration': " + e)
      case Ok(n) => ParseUintSpec(v, Pow64); Ok(n)
  }

  /**
   * The four required parameters are present (by the first-match rule of
   * `Get`) and parse. Stated with the independent characterisations of `Get`
   * and the parsers rather than with their error strings.
   */
  predicate RequiredParamsValid(a: AllParams, parseFloat: string -> Option<real>) {
    && HasKey(a.node, MultiplierKey) && parseFloat(Get(a.node, MultiplierKey).0).Some?
    && HasKey(a.node, DaoAllocationKey) && Atoi(Get(a.node, DaoAllocationKey).0).Ok?
    && HasKey(a.node, ProposerPercentageKey) && Atoi(Get(a.node, ProposerPercentageKey).0).Ok?
    && HasKey(a.pocket, ClaimExpirationKey) && ParseUint(Get(a.pocket, ClaimExpirationKey).0, Pow64).Ok?
  }

  predicate HasKey(g: ParamGroup, k: string) {
    exists i :: 0 <= i < |g| && g[i].key == k
  }

  /** A DAO allocation written as 300 is stored as 44: the int64 value is truncated to uint8. */
  lemma DaoAllocationTruncated(a: AllParams, parseFloat: string -> Option<real>)
    requires a.node == [Param(MultiplierKey, "89"), Param(DaoAllocationKey, "300"), Param(ProposerPercentageKey, "5")]
    requires a.pocket == [Param(ClaimExpirationKey, "24")]
    requires parseFloat("89") == Some(89.0)
    ensures ParamsAtHeight(1, Ok(a), parseFloat) == Ok(Params(89.0, 44, 5, 24))
  {
    assert Get(a.node, MultiplierKey) == ("89", true);
    assert Multiplier(a.node, 1, parseFloat) == Ok(89.0);
    ExampleDao(a.node);
    ExampleProposer(a.node);
    ExampleClaimExpiration(a.pocket);
  }

  lemma ExampleDao(np: ParamGroup)
    requires np == [Param(MultiplierKey, "89"), Param(DaoAllocationKey, "300"), Param(ProposerPercentageKey, "5")]
    ensures Percentage(np, DaoAllocationKey, "pos/DAOAllocation") == Ok(44)
  {
    assert np[0].key != DaoAllocationKey by { assert |np[0].key| != |DaoAllocationKey|; }
    assert np[1].key == DaoAllocationKey;
    assert Get(np, DaoAllocationKey) == ("300", true);
    Atoi300();
  }

  lemma Atoi300()
    ensures Atoi("300") == Ok(300)
  {
    assert DecimalString(300) == DecimalString(30) + ['0'] == DecimalString(3) + ['0'] + ['0'];
    assert DecimalString(300) == "300";
    AtoiDecimal(300);
  }

  lemma ExampleProposer(np: ParamGroup)
    requires np == [Param(MultiplierKey, "89"), Param(DaoAllocationKey, "300"), Param(ProposerPercentageKey, "5")]
    ensures Percentage(np, ProposerPercentageKey, "pos/ProposerCut") == Ok(5)
  {
    assert np[0].key != ProposerPercentageKey by { assert |np[0].key| != |ProposerPercentageKey|; }
    assert np[1].key != ProposerPercentageKey by { assert |np[1].key| != |ProposerPercentageKey|; }
    assert np[2].key == ProposerPercentageKey;
    assert Get(np, ProposerPercentageKey) == ("5", true);
    assert DecimalString(5) == "5" by { assert DigitsValue("5") == 5; CanonicalDigitsUnique(DecimalString(5), "5"); }
    AtoiDecimal(5);
  }

  lemma ExampleClaimExpiration(pp: ParamGroup)
    requires pp == [Param(ClaimExpirationKey, "24")]
    ensures ClaimExpiration(pp) == Ok(24)
  {
    assert pp[0].key == ClaimExpirationKey;
    assert Get(pp, ClaimExpirationKey) == ("24", true);
    assert DecimalString(24) == "24" by { assert DigitsValue("24") == 24; CanonicalDigitsUnique(DecimalString(24), "24"); }
    ParseUintDecimal(24, Pow64);
  }

  /* ---------------- AccountTransactions ---------------- */

  /** The fields `AccountTransactions` fills in for one transaction. */
  function Enrich(tx: Transaction, p: Params, time: Time, poktPerRelay: real): (r: Transaction)
    ensures r.expireHeight == (p.claimExpirationBlocks + tx.height) % Pow64
    ensures r.expireHeight == p.claimExpirationBlocks + tx.height <==> p.claimExpirationBlocks + tx.height < Pow64
    ensures r.(time := tx.time, poktPerRelay := tx.poktPerRelay, expireHeight := tx.expireHeight) == tx
    ensures r.time == time && r.poktPerRelay == poktPerRelay
  {
    tx.(time := time, poktPerRelay := poktPerRelay, expireHeight := (p.claimExpirationBlocks + tx.height) % Pow64)
  }

  /**
   * `AccountTransactions`: for every transaction of the provider's page, in
   * order, look up the parameters at its height (as int64) and its block
   * time; the first failure aborts the whole call.
   */
  function AccountTransactions(page: Result<seq<Transaction>>, paramsAt: int -> Result<Params>,
                               blockTime: nat -> Result<Time>, poktPerRelay: Params -> real): (r: Result<seq<Transaction>>)
    ensures page.Err? ==> r.Err?
    ensures r.Ok? <==> page.Ok? && forall i :: 0 <= i < |page.value| ==> LookupsSucceed(page.value[i], paramsAt, blockTime)
    ensures r.Ok? ==> |r.value| == |page.value| && forall i :: 0 <= i < |page.value| ==>
      var tx := page.value[i];
      var p := paramsAt(ToInt64(tx.height)).value;
      r.value[i] == Enrich(tx, p, blockTime(tx.height).value, poktPerRelay(p))
  {
    match page
    case Err(e) => Err("AccountTransactions: " + e)
    case Ok(txs) => EnrichAll(txs, paramsAt, blockTime, poktPerRelay)
  }

  predicate LookupsSucceed(tx: Transaction, paramsAt: int -> Result<Params>, blockTime: nat -> Result<Time>) {
    paramsAt(ToInt64(tx.height)).Ok? && blockTime(tx.height).Ok?
  }

  function EnrichAll(txs: seq<Transaction>, paramsAt: int -> Result<Params>,
                     blockTime: nat -> Result<Time>, poktPerRelay: Params -> real): (r: Result<seq<Transaction>>)
    ensures r.Ok? <==> forall i :: 0 <= i < |txs| ==> LookupsSucceed(txs[i], paramsAt, blockTime)
    ensures r.Ok? ==> |r.value| == |txs| && forall i :: 0 <= i < |txs| ==>
      var p := paramsAt(ToInt64(txs[i].height)).value;
      r.value[i] == Enrich(txs[i], p, blockTime(txs[i].height).value, poktPerRelay(p))
    decreases |txs|
  {
    if |txs| == 0 then Ok([])
    else
      var tx := txs[0];
      match paramsAt(ToInt64(tx.height))
      case Err(e) => Err("AccountTransactions: " + e)
      case Ok(p) =>
        match blockTime(tx.height)
        case Err(e) => Err("AccountTransactions: " + e)
        case Ok(time) =>
          match EnrichAll(txs[1..], paramsAt, blockTime, poktPerRelay)
          case Err(e) => Err(e)
          case Ok(rest) =>
            assert forall i :: 1 <= i < |txs| ==> txs[i] == txs[1..][i - 1];
            Ok([Enrich(tx, p, time, poktPerRelay(p))] + rest)
  }

  /* ---------------- AccountClaimsAndProofs ---------------- */

  const PerPage: nat := 100
  const SortDirection: string := "desc"

  /**
   * Stores every transaction of type `ty` under its session key, in order, so a
   * later transaction with the same key replaces an earlier one.
   */
  function Store(m: map<string, Transaction>, txs: seq<Transaction>, ty: string): map<string, Transaction>
    decreases |txs|
  {
    if |txs| == 0 then m
    else
      var before := Store(m, txs[..|txs| - 1], ty);
      var tx := txs[|txs| - 1];
      if tx.txType == ty then before[SessionKey(tx) := tx] else before
  }

  function Bucket(txs: seq<Transaction>, ty: string): map<string, Transaction> {
    Store(map[], txs, ty)
  }

  /** The index of the last transaction of type `ty` with session key k, or -1 when there is none. */
  function LastMatch(txs: seq<Transaction>, ty: string, k: string): (i: int)
    ensures -1 <= i < |txs|
    ensures 0 <= i ==> txs[i].txType == ty && SessionKey(txs[i]) == k
    ensures forall j :: i < j < |txs| ==> !(txs[j].txType == ty && SessionKey(txs[j]) == k)
    decreases |txs|
  {
    if |txs| == 0 then -1
    else if txs[|txs| - 1].txType == ty && SessionKey(txs[|txs| - 1]) == k then |txs| - 1
    else LastMatch(txs[..|txs| - 1], ty, k)
  }

  /**
   * A key is in the bucket iff some transaction of that type has it, and the
   * stored transaction is the last such one.
   */
  lemma {:induction false} BucketSpec(txs: seq<Transaction>, ty: string, k: string)
    ensures k in Bucket(txs, ty) <==> LastMatch(txs, ty, k) >= 0
    ensures k in Bucket(txs, ty) ==> Bucket(txs, ty)[k] == txs[LastMatch(txs, ty, k)]
    decreases |txs|
  {
    if |txs| != 0 {
      BucketSpec(txs[..|txs| - 1], ty, k);
    }
  }

  /** Storing two runs one after the other is storing their concatenation. */
  lemma {:induction false} StoreConcat(m: map<string, Transaction>, a: seq<Transaction>, b: seq<Transaction>, ty: string)
    ensures Store(Store(m, a, ty), b, ty) == Store(m, a + b, ty)
    decreases |b|
  {
    if |b| == 0 {
      assert a + b == a;
    } else {
      var n := |b| - 1;
      assert (a + b)[..|a| + n] == a + b[..n];
      assert (a + b)[|a| + n] == b[n];
      StoreConcat(m, a, b[..n], ty);
    }
  }

  /** The outcome of the paging loop; `Unfinished` when the model's fuel runs out first. */
  datatype Collected =
    | Collected(claims: map<string, Transaction>, proofs: map<string, Transaction>)
    | Failed(msg: string)
    | Unfinished

  /**
   * `AccountClaimsAndProofs` from page `page` on: `fetch(page, perPage, sort)`
   * stands for the service's own `AccountTransactions` call for the address.
   */
  function ClaimsAndProofsFrom(fetch: (nat, nat, string) -> Result<seq<Transaction>>, page: nat, fuel: nat,
                               claims: map<string, Transaction>, proofs: map<string, Transaction>): (r: Collected)
    decreases fuel
  {
    if fuel == 0 then Unfinished
    else match fetch(page, PerPage, SortDirection)
      case Err(e) => Failed("AccountClaimsAndProofs: " + e)
      case Ok(txs) =>
        var c, p := Store(claims, txs, TypeClaim), Store(proofs, txs, TypeProof);
        if |txs| < PerPage then Collected(c, p)
        else ClaimsAndProofsFrom(fetch, page + 1, fuel - 1, c, p)
  }

  function AccountClaimsAndProofs(fetch: (nat, nat, string) -> Result<seq<Transaction>>, fuel: nat): Collected {
    ClaimsAndProofsFrom(fetch, 1, fuel, map[], map[])
  }

  /** The transactions of `count` pages starting at `page`, when all of them were fetched successfully. */
  function Pages(fetch: (nat, nat, string) -> Result<seq<Transaction>>, page: nat, count: nat): seq<Transaction>
    decreases count
  {
    if count == 0 then []
    else
      var txs := match fetch(page, PerPage, SortDirection) case Ok(t) => t case Err(_) => [];
      txs + Pages(fetch, page + 1, count - 1)
  }

  /** Pages `page` … `page + count - 1` all succeeded and were full. */
  predicate FullPages(fetch: (nat, nat, string) -> Result<seq<Transaction>>, page: nat, count: nat) {
    forall q :: page <= q < page + count ==>
      fetch(q, PerPage, SortDirection).Ok? && |fetch(q, PerPage, SortDirection).value| >= PerPage
  }

  /** One full page: the loop stores its transactions and moves on to the next page. */
  lemma FromFullPage(fetch: (nat, nat, string) -> Result<seq<Transaction>>, page: nat, fuel: nat,
                     claims: map<string, Transaction>, proofs: map<string, Transaction>)
    requires 0 < fuel && fetch(page, PerPage, SortDirection).Ok?
    requires |fetch(page, PerPage, SortDirection).value| >= PerPage
    ensures var txs := fetch(page, PerPage, SortDirection).value;
      ClaimsAndProofsFrom(fetch, page, fuel, claims, proofs)
      == ClaimsAndProofsFrom(fetch, page + 1, fuel - 1, Store(claims, txs, TypeClaim), Store(proofs, txs, TypeProof))
  {
  }

  lemma PagesStep(fetch: (nat, nat, string) -> Result<seq<Transaction>>, page: nat, count: nat)
    requires fetch(page, PerPage, SortDirection).Ok?
    ensures Pages(fetch, page, count + 1) == fetch(page, PerPage, SortDirection).value + Pages(fetch, page + 1, count)
  {
  }

  /** The pages a finished collection read: `count` pages, all but the last full, the last short. */
  predicate ReadPages(fetch: (nat, nat, string) -> Result<seq<Transaction>>, page: nat, count: nat) {
    && 0 < count
    && FullPages(fetch, page, count - 1)
    && fetch(page + count - 1, PerPage, SortDirection).Ok?
    && |fetch(page + count - 1, PerPage, SortDirection).value| < PerPage
  }

  /**
   * A finished collection read pages `page`, `page + 1`, … up to the first one
   * with fewer than 100 transactions, every one of them full before it, and
   * bucketed all their transactions in that order.
   */
  lemma {:induction false} ClaimsAndProofsPages(fetch: (nat, nat, string) -> Result<seq<Transaction>>, page: nat, fuel: nat,
                                                claims: map<string, Transaction>, proofs: map<string, Transaction>)
    requires ClaimsAndProofsFrom(fetch, page, fuel, claims, proofs).Collected?
    ensures exists count: nat :: (count <= fuel && ReadPages(fetch, page, count)
      && ClaimsAndProofsFrom(fetch, page, fuel, claims, proofs)
         == Collected(Store(claims, Pages(fetch, page, count), TypeClaim), Store(proofs, Pages(fetch, page, count), TypeProof)))
    decreases fuel
  {
    var txs := fetch(page, PerPage, SortDirection).value;
    var c, p := Store(claims, txs, TypeClaim), Store(proofs, txs, TypeProof);
    if |txs| >= PerPage {
      FromFullPage(fetch, page, fuel, claims, proofs);
      ClaimsAndProofsPages(fetch, page + 1, fuel - 1, c, p);
      var count: nat :| count <= fuel - 1 && ReadPages(fetch, page + 1, count)
        && ClaimsAndProofsFrom(fetch, page + 1, fuel - 1, c, p)
           == Collected(Store(c, Pages(fetch, page + 1, count), TypeClaim), Store(p, Pages(fetch, page + 1, count), TypeProof));
      FullPageStep(fetch, page, fuel, claims, proofs, count);
    } else {
      LastPageOnly(fetch, page, fuel, claims, proofs);
    }
  }

  /** A collection that ends at its first page read that page alone. */
  lemma LastPageOnly(fetch: (nat, nat, string) -> Result<seq<Transaction>>, page: nat, fuel: nat,
                     claims: map<string, Transaction>, proofs: map<string, Transaction>)
    requires 0 < fuel && fetch(page, PerPage, SortDirection).Ok?
    requires |fetch(page, PerPage, SortDirection).value| < PerPage
    ensures 1 <= fuel && ReadPages(fetch, page, 1)
    ensures ClaimsAndProofsFrom(fetch, page, fuel, claims, proofs)
      == Collected(Store(claims, Pages(fetch, page, 1), TypeClaim), Store(proofs, Pages(fetch, page, 1), TypeProof))
  {
    var txs := fetch(page, PerPage, SortDirection).value;
    PagesStep(fetch, page, 0);
    assert txs + [] == txs;
  }

  /** A full first page followed by a finished collection of `count` pages is a finished collection of count + 1. */
  lemma FullPageStep(fetch: (nat, nat, string) -> Result<seq<Transaction>>, page: nat, fuel: nat,
                     claims: map<string, Transaction>, proofs: map<string, Transaction>, count: nat)
    requires 0 < fuel && fetch(page, PerPage, SortDirection).Ok?
    requires |fetch(page, PerPage, SortDirection).value| >= PerPage
    requires var txs := fetch(page, PerPage, SortDirection).value;
      var c, p := Store(claims, txs, TypeClaim), Store(proofs, txs, TypeProof);
      && count <= fuel - 1 && ReadPages(fetch, page + 1, count)
      && ClaimsAndProofsFrom(fetch, page + 1, fuel - 1, c, p)
         == Collected(Store(c, Pages(fetch, page + 1, count), TypeClaim), Store(p, Pages(fetch, page + 1, count), TypeProof))
    ensures count + 1 <= fuel && ReadPages(fetch, page, count + 1)
    ensures ClaimsAndProofsFrom(fetch, page, fuel, claims, proofs)
      == Collected(Store(claims, Pages(fetch, page, count + 1), TypeClaim), Store(proofs, Pages(fetch, page, count + 1), TypeProof))
  {
    var txs := fetch(page, PerPage, SortDirection).value;
    var rest := Pages(fetch, page + 1, count);
    FromFullPage(fetch, page, fuel, claims, proofs);
    PagesStep(fetch, page, count);
    StoreConcat(claims, txs, rest, TypeClaim);
    StoreConcat(proofs, txs, rest, TypeProof);
    ReadPagesStep(fetch, page, count);
  }

  lemma ReadPagesStep(fetch: (nat, nat, string) -> Result<seq<Transaction>>, page: nat, count: nat)
    requires fetch(page, PerPage, SortDirection).Ok? && |fetch(page, PerPage, SortDirection).value| >= PerPage
    requires ReadPages(fetch, page + 1, count)
    ensures ReadPages(fetch, page, count + 1)
  {
  }

  /** Only claims go into the claims map and only proofs into the proofs map, each under its own session key. */
  lemma StoreKeepsTypes(m: map<string, Transaction>, txs: seq<Transaction>, ty: string)
    requires forall k :: k in m ==> m[k].txType == ty && SessionKey(m[k]) == k
    ensures forall k :: k in Store(m, txs, ty) ==> Store(m, txs, ty)[k].txType == ty && SessionKey(Store(m, txs, ty)[k]) == k
    decreases |txs|
  {
    if |txs| != 0 {
      StoreKeepsTypes(m, txs[..|txs| - 1], ty);
    }
  }
}
