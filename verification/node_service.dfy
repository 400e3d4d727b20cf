/**
 * The indexing service's node service: all staked nodes at a height, read
 * from the provider 10000 per page, pages 1, 2, 3, … until the last page.
 */
module NodeService {
  import opened Wrappers
  import opened Text
  import opened IndexingPocket
  import opened Paging

  const PerPage := 10000

  /** A node as the provider reports it; its token count is decimal text. */
  datatype ProviderNode = ProviderNode(
    address: string, publicKey: string, jailed: bool, status: int, chains: seq<string>,
    serviceUrl: string, tokens: string, unstakingTime: int, outputAddress: string)

  datatype NodesResponse = NodesResponse(result: seq<ProviderNode>, totalPages: int)

  /** One node, stamped with the requested height; its tokens must be a decimal int. */
  function ConvertNode(height: int, n: ProviderNode): (r: Result<Node>)
    ensures r.Ok? <==> Atoi(n.tokens).Ok?
    ensures r.Ok? ==> r.value.height == ToUint64(height) && r.value.tokens == ToUint64(Atoi(n.tokens).value)
    ensures r.Ok? ==> (r.value.address == n.address && r.value.publicKey == n.publicKey && r.value.jailed == n.jailed
      && r.value.status == n.status && r.value.chains == n.chains && r.value.serviceUrl == n.serviceUrl
      && r.value.unstakingTime == n.unstakingTime && r.value.outputAddress == n.outputAddress)
  {
    match Atoi(n.tokens)
    case Err(e) => Err("NodesAtHeight: " + e)
    case Ok(t) => Ok(Node(n.address, ToUint64(height), n.publicKey, n.jailed, n.status, n.chains, n.serviceUrl,
                          ToUint64(t), n.unstakingTime, n.outputAddress))
  }

  /** A page's nodes in order, or the first conversion error. */
  function ConvertNodes(height: int, ns: seq<ProviderNode>): (r: Result<seq<Node>>)
    ensures r.Ok? <==> forall i :: 0 <= i < |ns| ==> ConvertNode(height, ns[i]).Ok?
    ensures r.Ok? ==> |r.value| == |ns| && forall i :: 0 <= i < |ns| ==> r.value[i] == ConvertNode(height, ns[i]).value
  {
    MapAll(ns, (n: ProviderNode) => ConvertNode(height, n))
  }

  /** The loop stops after a page that is the last one or is not full. */
  predicate IsLastPage(page: int, resp: NodesResponse) {
    page == resp.totalPages || |resp.result| < PerPage
  }

  /**
   * One round of the loop: page p is fetched and its nodes converted; the
   * loop stops after it when it is the last page or not a full one.
   */
  function ReadNodePage(provider: int -> Result<NodesResponse>, height: int, p: int): (r: Result<Page<Node>>)
    ensures provider(p).Err? ==> r == Err("NodesAtHeight: " + provider(p).msg)
    ensures provider(p).Ok? ==> (r.Ok? <==> ConvertNodes(height, provider(p).value.result).Ok?)
    ensures r.Ok? ==> (provider(p).Ok? && r.value.items == ConvertNodes(height, provider(p).value.result).value
      && (r.value.stop <==> IsLastPage(p, provider(p).value)))
  {
    match provider(p)
    case Err(e) => Err("NodesAtHeight: " + e)
    case Ok(resp) =>
      match ConvertNodes(height, resp.result)
      case Err(e) => Err(e)
      case Ok(ns) => Ok(Page(ns, IsLastPage(p, resp)))
  }

  function Reader(provider: int -> Result<NodesResponse>, height: int): (int, nat) -> Result<Page<Node>> {
    (p: int, have: nat) => ReadNodePage(provider, height, p)
  }

  /**
   * `NodesAtHeight(height)`: round i asks for page i + 1; a finished walk
   * holds the nodes of the pages it read, in order, and stopped at the first
   * last or short page.
   */
  function NodesAtHeight(provider: int -> Result<NodesResponse>, height: int, fuel: nat): (w: Walk<Node>)
    ensures |w.requested| <= fuel
    ensures forall k :: 0 <= k < |w.requested| ==> w.requested[k] == k + 1
    ensures w.status.OutOfFuel? ==> |w.requested| == fuel && Continues(Reader(provider, height), w.requested, 0)
    ensures w.status.Done? ==> (StopsAtLast(Reader(provider, height), w.requested, 0)
      && ItemsOf(Reader(provider, height), w.requested, 0) == Ok(w.status.items))
    ensures w.status.Failed? ==> 0 < |w.requested| && ItemsOf(Reader(provider, height), w.requested, 0) == Err(w.status.msg)
  {
    Run(Reader(provider, height), Consecutive, 0, 0, fuel)
  }

  /** Every node collected from a run of pages carries the requested height. */
  lemma {:induction false} NodesStamped(provider: int -> Result<NodesResponse>, height: int, pages: seq<int>, have: nat)
    requires ItemsOf(Reader(provider, height), pages, have).Ok?
    ensures forall n :: n in ItemsOf(Reader(provider, height), pages, have).value ==> n.height == ToUint64(height)
    decreases |pages|
  {
    if |pages| > 0 {
      assert Reader(provider, height)(pages[0], have) == ReadNodePage(provider, height, pages[0]);
      var pg := ReadNodePage(provider, height, pages[0]).value;
      NodesStamped(provider, height, pages[1..], have + |pg.items|);
      forall n | n in pg.items ensures n.height == ToUint64(height) {
        var i :| 0 <= i < |pg.items| && pg.items[i] == n;
      }
    }
  }
}
