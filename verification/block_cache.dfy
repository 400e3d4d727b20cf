/**
 * The indexing service's caching block service: heights come straight from
 * the backing service, blocks from the in-memory repository when present.
 */
module BlockCache {
  import opened Wrappers
  import opened IndexingPocket
  import opened BlockStore
  import opened ReadThrough

  const BlockWraps := Wraps("cachingService.Block: ", "cachingService.Block: ", "cachingService.Block: insertBlock: ")

  /** `Height`: the backing service's height, or its error wrapped. */
  function Height(service: Result<int>): (r: Result<int>)
    ensures r.Ok? <==> service.Ok?
    ensures r.Ok? ==> r.value == service.value
    ensures r.Err? ==> r.msg == "cachingService.Height: " + service.msg
  {
    match service
    case Ok(h) => Ok(h)
    case Err(e) => Err("cachingService.Height: " + e)
  }

  /** What the repository answers for height h: a failure of the repository itself, or its block if stored. */
  function RepoLookup(s: Store, h: int, fault: Option<string>): (r: Result<Option<Block>>)
    ensures fault.Some? ==> r == Err(fault.value)
    ensures fault.None? ==> r.Ok? && (r.value.Some? <==> FetchBlock(s, h).1)
    ensures fault.None? && r.value.Some? ==> r.value.value == FetchBlock(s, h).0
  {
    match fault
    case Some(e) => Err(e)
    case None => if FetchBlock(s, h).1 then Ok(Some(FetchBlock(s, h).0)) else Ok(None)
  }

  /**
   * `Block(h)`: a stored block is returned without asking the service; a
   * missing one is fetched, inserted under its own height, and returned.
   * `fault` stands for a failing repository read.
   */
  function GetBlock(s: Store, h: int, fault: Option<string>, service: int -> Result<Block>): (o: Outcome<Store, Block>)
    ensures fault.Some? ==> !o.consulted && o.result.Err? && o.store == s
    ensures fault.None? && FetchBlock(s, h).1 ==> o == Outcome(s, Ok(FetchBlock(s, h).0), false)
    ensures fault.None? && !FetchBlock(s, h).1 ==> o.consulted
    ensures o.consulted && service(h).Err? ==> o.result.Err? && o.store == s
    ensures o.consulted && service(h).Ok? ==>
      (o.result.Ok? <==> !FetchBlock(s, service(h).value.height).1)
    ensures o.consulted && o.result.Ok? ==>
      o.result.value == service(h).value
      && FetchBlock(o.store, service(h).value.height) == (service(h).value, true)
      && forall k :: k != service(h).value.height ==> FetchBlock(o.store, k) == FetchBlock(s, k)
    ensures o.result.Err? ==> o.store == s
  {
    Lookup(s, h, RepoLookup(s, h, fault), service, (t: Store, b: Block) => InsertBlock(t, b), BlockWraps)
  }

  /**
   * When the service answers with a block of the requested height, a
   * successful `Block(h)` leaves it stored, and asking again is a hit that
   * returns the same block without the service.
   */
  lemma BlockCached(s: Store, h: int, service: int -> Result<Block>, service2: int -> Result<Block>)
    requires service(h).Ok? ==> service(h).value.height == h
    requires GetBlock(s, h, None, service).result.Ok?
    ensures FetchBlock(GetBlock(s, h, None, service).store, h).1
    ensures GetBlock(GetBlock(s, h, None, service).store, h, None, service2)
      == Outcome(GetBlock(s, h, None, service).store, GetBlock(s, h, None, service).result, false)
  {
  }

  /**
   * When the service answers with a block of another, already stored height,
   * the fetch happened but the insert fails, so `Block(h)` reports an error
   * and the repository is unchanged.
   */
  lemma InsertErrorAfterFetch(s: Store, h: int, service: int -> Result<Block>)
    requires !FetchBlock(s, h).1
    requires service(h).Ok? && FetchBlock(s, service(h).value.height).1
    ensures GetBlock(s, h, None, service).consulted
    ensures GetBlock(s, h, None, service).result.Err? && GetBlock(s, h, None, service).store == s
  {
  }
}
