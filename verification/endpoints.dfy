/**
 * The monitoring service's endpoints: the request variants the transport
 * layer decodes, and the mapping from service results to responses.
 */
module Endpoints {
  import opened Wrappers
  import opened Pocket
  import Seqs
  import Sorting

  /** The decoded request types; a request of the wrong variant fails the endpoint's type assertion. */
  datatype Request =
    | TransactionRequest(hash: string)
    | AccountTransactionsRequest(address: string, page: nat, perPage: nat, sort: string)
    | MonthlyRewardsRequest(address: string)
    | NodeRequest(address: string)

  datatype TxResponse = TxResponse(hash: string, height: nat, time: Time, txType: string, chainID: string, numProofs: nat)

  datatype MonthResponse = MonthResponse(year: nat, month: Month, numRelays: nat, poktAmount: int, transactions: seq<TxResponse>)

  datatype ChainResponse = ChainResponse(name: string, id: string)

  datatype NodeResponse = NodeResponse(
    address: string,
    balance: nat,
    stakedBalance: string,
    isJailed: bool,
    chains: seq<ChainResponse>,
    isSynced: bool,
    latestBlockHeight: nat,
    latestBlockTime: Time)

  function ToTxResponse(t: Transaction): TxResponse {
    TxResponse(t.hash, t.height, t.time, t.txType, t.chainID, t.numProofs)
  }

  /** The transactions one-to-one, in order. */
  function TxResponses(txs: seq<Transaction>): (r: seq<TxResponse>)
    ensures |r| == |txs|
    ensures forall i :: 0 <= i < |txs| ==> r[i] == ToTxResponse(txs[i])
  {
    seq(|txs|, i requires 0 <= i < |txs| => ToTxResponse(txs[i]))
  }

  /** One month's response: the month's relays are its TotalProofs, its amount the confirmed-only sum. */
  function ToMonthResponse(m: MonthlyReward): (r: MonthResponse)
    ensures r.year == m.year && r.month == m.month
    ensures r.numRelays == m.totalProofs
    ensures r.poktAmount == Seqs.Sum(Seqs.Filter(m.transactions, Confirmed), Amount)
    ensures r.transactions == TxResponses(m.transactions)
  {
    MonthResponse(m.year, m.month, m.totalProofs, PoktAmount(m.transactions), TxResponses(m.transactions))
  }

  /** Year first, then month: (y, m) sorts after (y', m') exactly when this key is larger. */
  function Recency(r: MonthResponse): int {
    r.year * 13 + r.month
  }

  lemma RecencyOrder(a: MonthResponse, b: MonthResponse)
    ensures Recency(a) >= Recency(b) <==> a.year > b.year || (a.year == b.year && a.month >= b.month)
    ensures Recency(a) == Recency(b) <==> a.year == b.year && a.month == b.month
  {
    if a.year > b.year {
      assert a.year * 13 >= b.year * 13 + 13;
    } else if a.year < b.year {
      assert b.year * 13 >= a.year * 13 + 13;
    }
  }

  /** The responses of the months in visiting order, before sorting. */
  function Responses(months: map<string, MonthlyReward>, order: seq<string>): (r: seq<MonthResponse>)
    requires forall k :: k in order ==> k in months
    ensures |r| == |order|
    ensures forall i :: 0 <= i < |order| ==> r[i] == ToMonthResponse(months[order[i]])
  {
    Seqs.MapValues(months, order, ToMonthResponse)
  }

  /**
   * `MonthlyRewardsEndpoint`: the months of `RewardsByMonth` (here `rewards`,
   * visited in `order`), one response each, sorted newest first. Go's
   * `sort.Slice` is not stable; the stable insertion sort is one of its
   * admissible outcomes, and the only one when no two months share a
   * (year, month).
   */
  function MonthlyRewardsEndpoint(request: Request, rewards: string -> Result<map<string, MonthlyReward>>, order: seq<string>)
    : (r: Result<seq<MonthResponse>>)
    requires request.MonthlyRewardsRequest? && rewards(request.address).Ok? ==> Seqs.IsEnumeration(order, rewards(request.address).value)
    ensures r.Ok? <==> request.MonthlyRewardsRequest? && rewards(request.address).Ok?
    ensures r.Ok? ==> |r.value| == |rewards(request.address).value|
    ensures r.Ok? ==> Sorting.SortedDesc(r.value, Recency)
    ensures r.Ok? ==> multiset(r.value) == multiset(Responses(rewards(request.address).value, order))
  {
    if !request.MonthlyRewardsRequest? then Err("MonthlyRewardsEndpoint: failed to parse request")
    else match rewards(request.address)
      case Err(e) => Err("MonthlyRewardsEndpoint: " + e)
      case Ok(months) =>
        EnumerationSize(order, months);
        Ok(Sorting.SortDesc(Responses(months, order), Recency))
  }

  lemma EnumerationSize(order: seq<string>, months: map<string, MonthlyReward>)
    requires Seqs.IsEnumeration(order, months)
    ensures |order| == |months|
  {
    var keys := set i | 0 <= i < |order| :: order[i];
    assert keys == months.Keys;
    DistinctCard(order);
  }

  lemma {:induction false} DistinctCard(order: seq<string>)
    requires forall i, j :: 0 <= i < j < |order| ==> order[i] != order[j]
    ensures |set i | 0 <= i < |order| :: order[i]| == |order|
    decreases |order|
  {
    if |order| != 0 {
      var n := |order| - 1;
      DistinctCard(order[..n]);
      var front := set i | 0 <= i < n :: order[..n][i];
      assert (set i | 0 <= i < |order| :: order[i]) == front + {order[n]};
      assert order[n] !in front;
    }
  }

  /** Newest first: a response before another is from a later year, or the same year and a month no earlier. */
  lemma NewestFirst(request: Request, rewards: string -> Result<map<string, MonthlyReward>>, order: seq<string>, i: nat, j: nat)
    requires request.MonthlyRewardsRequest? && rewards(request.address).Ok? && Seqs.IsEnumeration(order, rewards(request.address).value)
    requires i < j < |rewards(request.address).value|
    ensures var r := MonthlyRewardsEndpoint(request, rewards, order).value;
      r[i].year > r[j].year || (r[i].year == r[j].year && r[i].month >= r[j].month)
  {
    var r := MonthlyRewardsEndpoint(request, rewards, order).value;
    RecencyOrder(r[i], r[j]);
  }

  /**
   * When no two months share a (year, month) — as for the result of
   * `RewardsByMonth`, whose keys are the year-month strings — the response
   * does not depend on the map's iteration order.
   */
  lemma OrderIrrelevant(request: Request, rewards: string -> Result<map<string, MonthlyReward>>, order1: seq<string>, order2: seq<string>)
    requires request.MonthlyRewardsRequest? && rewards(request.address).Ok?
    requires Seqs.IsEnumeration(order1, rewards(request.address).value)
    requires Seqs.IsEnumeration(order2, rewards(request.address).value)
    requires var months := rewards(request.address).value;
      forall k1, k2 :: k1 in months && k2 in months && months[k1].year == months[k2].year && months[k1].month == months[k2].month ==> k1 == k2
    ensures MonthlyRewardsEndpoint(request, rewards, order1) == MonthlyRewardsEndpoint(request, rewards, order2)
  {
    var months := rewards(request.address).value;
    var a := Responses(months, order1);
    var b := Responses(months, order2);
    PermutedOrders(order1, order2, months);
    ResponsesPermute(months, order1, order2);
    DistinctRecency(months, order1);
    Sorting.SortDescDeterministic(a, b, Recency);
  }

  /** Distinct (year, month) pairs over distinct keys give responses with distinct recency. */
  lemma DistinctRecency(months: map<string, MonthlyReward>, order: seq<string>)
    requires Seqs.IsEnumeration(order, months)
    requires forall k1, k2 :: k1 in months && k2 in months && months[k1].year == months[k2].year && months[k1].month == months[k2].month ==> k1 == k2
    ensures var a := Responses(months, order);
      forall x, y :: x in a && y in a && Recency(x) == Recency(y) ==> x == y
  {
    var a := Responses(months, order);
    forall p, q | 0 <= p < |a| && 0 <= q < |a| && Recency(a[p]) == Recency(a[q]) ensures a[p] == a[q] {
      SameMonthSameKey(months, order[p], order[q], a[p], a[q]);
    }
  }

  lemma SameMonthSameKey(months: map<string, MonthlyReward>, kp: string, kq: string, x: MonthResponse, y: MonthResponse)
    requires kp in months && kq in months
    requires forall k1, k2 :: k1 in months && k2 in months && months[k1].year == months[k2].year && months[k1].month == months[k2].month ==> k1 == k2
    requires x == ToMonthResponse(months[kp]) && y == ToMonthResponse(months[kq]) && Recency(x) == Recency(y)
    ensures x == y
  {
    RecencyOrder(x, y);
  }

  /** Two enumerations of the same map are permutations of each other. */
  lemma PermutedOrders(order1: seq<string>, order2: seq<string>, months: map<string, MonthlyReward>)
    requires Seqs.IsEnumeration(order1, months) && Seqs.IsEnumeration(order2, months)
    ensures multiset(order1) == multiset(order2)
  {
    DistinctMultiset(order1);
    DistinctMultiset(order2);
    forall k ensures multiset(order1)[k] == multiset(order2)[k] {
      assert k in order1 <==> k in order2;
    }
  }

  /** In a sequence without repeats every element occurs once. */
  lemma {:induction false} DistinctMultiset(s: seq<string>)
    requires forall i, j :: 0 <= i < j < |s| ==> s[i] != s[j]
    ensures forall k :: multiset(s)[k] == if k in s then 1 else 0
    decreases |s|
  {
    if |s| != 0 {
      var n := |s| - 1;
      DistinctMultiset(s[..n]);
      assert s == s[..n] + [s[n]];
      assert s[n] !in s[..n];
    }
  }

  /** Mapping permuted keys gives permuted responses. */
  lemma ResponsesPermute(months: map<string, MonthlyReward>, order1: seq<string>, order2: seq<string>)
    requires forall k :: k in order1 ==> k in months
    requires forall k :: k in order2 ==> k in months
    requires multiset(order1) == multiset(order2)
    ensures multiset(Responses(months, order1)) == multiset(Responses(months, order2))
  {
    Seqs.MapValuesPermute(months, order1, order2, ToMonthResponse);
  }

  /** `AccountTransactionsEndpoint`: the service's transactions one-to-one, in order. */
  function AccountTransactionsEndpoint(request: Request, transactions: (string, nat, nat, string) -> Result<seq<Transaction>>)
    : (r: Result<seq<TxResponse>>)
    ensures r.Ok? <==> (request.AccountTransactionsRequest?
      && transactions(request.address, request.page, request.perPage, request.sort).Ok?)
    ensures r.Ok? ==> r.value == TxResponses(transactions(request.address, request.page, request.perPage, request.sort).value)
  {
    if !request.AccountTransactionsRequest? then Err("AccountTransactionsEndpoint: failed to parse request")
    else match transactions(request.address, request.page, request.perPage, request.sort)
      case Err(e) => Err("AccountTransactionsEndpoint: " + e)
      case Ok(txs) => Ok(TxResponses(txs))
  }

  /** `NodeEndpoint`: the node's fields copied, each chain reduced to its name and id, in order. */
  function NodeEndpoint(request: Request, node: string -> Result<Node>): (r: Result<NodeResponse>)
    ensures r.Ok? <==> request.NodeRequest? && node(request.address).Ok?
    ensures r.Ok? ==> var n := node(request.address).value;
      && |r.value.chains| == |n.chains|
      && (forall i :: 0 <= i < |n.chains| ==> r.value.chains[i] == ChainResponse(n.chains[i].name, n.chains[i].id))
      && r.value.address == n.address && r.value.balance == n.balance && r.value.stakedBalance == n.stakedBalance
      && r.value.isJailed == n.isJailed && r.value.isSynced == n.isSynced
      && r.value.latestBlockHeight == n.latestBlockHeight && r.value.latestBlockTime == n.latestBlockTime
  {
    if !request.NodeRequest? then Err("NodeEndpoint: failed to parse request")
    else match node(request.address)
      case Err(e) => Err("NodeEndpoint: " + e)
      case Ok(n) =>
        var chains := seq(|n.chains|, i requires 0 <= i < |n.chains| => ChainResponse(n.chains[i].name, n.chains[i].id));
        Ok(NodeResponse(n.address, n.balance, n.stakedBalance, n.isJailed, chains, n.isSynced, n.latestBlockHeight, n.latestBlockTime))
  }
}
