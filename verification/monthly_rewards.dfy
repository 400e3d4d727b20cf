/**
 * The monthly rewards accordion: the per-chain relay slices of a month, the
 * order its transaction rows are drawn in, and the flags around loading the
 * rewards.
 */
module MonthlyRewards {
  import opened Wrappers
  import opened UiTypes
  import Sorting

  /** One slice of the per-chain chart; `name` is the slice's label. */
  datatype Slice = Slice(id: string, name: string, value: int)

  function SliceOf(c: ChainRelays): Slice {
    Slice(c.name, c.name, c.numRelays)
  }

  function SliceValue(s: Slice): int {
    s.value
  }

  /** The loop filling `data`: one slice per relays_by_chain entry, at the same index. */
  function Slices(chains: seq<ChainRelays>): (data: seq<Slice>)
    ensures |data| == |chains|
    ensures forall i :: 0 <= i < |chains| ==>
      data[i].id == chains[i].name && data[i].name == chains[i].name && data[i].value == chains[i].numRelays
  {
    seq(|chains|, i requires 0 <= i < |chains| => SliceOf(chains[i]))
  }

  /**
   * `relaysByChain(month)`: the slices by non-increasing value. The page's
   * comparator never answers "equal", so the order of ties is up to the
   * engine; the model puts them in one valid order.
   */
  function RelaysByChain(month: MonthReward): (r: seq<Slice>)
    ensures Sorting.SortedDesc(r, SliceValue)
    ensures multiset(r) == multiset(Slices(month.relaysByChain))
  {
    Sorting.SortDesc(Slices(month.relaysByChain), SliceValue)
  }

  /**
   * When no two chains have the same relay count, any ordering the engine
   * could produce equals the model's.
   */
  lemma OrderDeterminedWithoutTies(month: MonthReward, other: seq<Slice>)
    requires Sorting.KeysDistinct(Slices(month.relaysByChain), SliceValue)
    requires Sorting.SortedDesc(other, SliceValue)
    requires multiset(other) == multiset(Slices(month.relaysByChain))
    ensures other == RelaysByChain(month)
  {
    var r := RelaysByChain(month);
    var data := Slices(month.relaysByChain);
    forall i, j | 0 <= i < |r| && 0 <= j < |r| && SliceValue(r[i]) == SliceValue(r[j])
      ensures r[i] == r[j]
    {
      assert r[i] in multiset(data) && r[j] in multiset(data);
      var a :| 0 <= a < |data| && data[a] == r[i];
      var b :| 0 <= b < |data| && data[b] == r[j];
    }
    Sorting.SortedDescUnique(r, other, SliceValue);
  }

  /** `transactions.slice(0).reverse()`: the month's transactions drawn from last to first, from a copy. */
  function ReversedRows<T>(txs: seq<T>): (rows: seq<T>)
    ensures |rows| == |txs|
    ensures forall i :: 0 <= i < |txs| ==> rows[i] == txs[|txs| - 1 - i]
    decreases |txs|
  {
    if |txs| == 0 then [] else [txs[|txs| - 1]] + ReversedRows(txs[..|txs| - 1])
  }

  /** Reversing the rows twice gives back the month's order. */
  lemma ReverseTwice<T>(txs: seq<T>)
    ensures ReversedRows(ReversedRows(txs)) == txs
  {
  }

  /** The component's loading flags. */
  datatype LoadState = LoadState(hasLoaded: bool, isRefreshing: bool)

  /** The effect fetches the rewards only while they have not been loaded. */
  predicate Fetches(st: LoadState) {
    !st.hasLoaded
  }

  /** Starting the fetch marks the page as refreshing. */
  function Start(st: LoadState): (r: LoadState)
    ensures r.isRefreshing && r.hasLoaded == st.hasLoaded
  {
    st.(isRefreshing := true)
  }

  /**
   * The fetch settling: the months are handed on only when it succeeded, and
   * either way the page counts as loaded and stops refreshing.
   */
  function Settle(st: LoadState, rewards: seq<MonthReward>, outcome: Result<seq<MonthReward>>): (r: (LoadState, seq<MonthReward>))
    ensures r.0 == LoadState(true, false)
    ensures outcome.Ok? ==> r.1 == outcome.value
    ensures outcome.Err? ==> r.1 == rewards
  {
    (LoadState(true, false), if outcome.Ok? then outcome.value else rewards)
  }

  /**
   * After one fetch settles, succeeded or not, the effect never fetches again;
   * while the first fetch is still in flight the guard stays open.
   */
  lemma NoFetchAfterSettle(rewards: seq<MonthReward>, outcome: Result<seq<MonthReward>>)
    ensures Fetches(LoadState(false, false))
    ensures Fetches(Start(LoadState(false, false)))
    ensures !Fetches(Settle(Start(LoadState(false, false)), rewards, outcome).0)
  {
  }
}
