/**
 * The indexing service's caching transaction service: a block's transactions
 * come from the repository when it already holds as many as the block
 * reports, and are otherwise fetched and written through one by one.
 */
module TransactionCache {
  import opened Wrappers
  import opened IndexingPocket
  import opened ReadThrough

  const Wrap := "cachingService.BlockTransactions: "

  /**
   * `BlockTransactions(height)` over a repository of state S. `block` is the
   * block service, `fetchAt` the repository read, `service` the backing
   * transaction service and `insert` the repository write.
   */
  method BlockTransactions<S>(s: S, height: int, block: int -> Result<Block>, fetchAt: (S, int) -> Result<seq<Transaction>>,
                              service: int -> Result<seq<Transaction>>, insert: (S, Transaction) -> Result<S>)
    returns (o: Outcome<S, seq<Transaction>>)
    ensures block(height).Err? ==> o == Outcome(s, Err(Wrap + block(height).msg), false)
    ensures block(height).Ok? && fetchAt(s, height).Err? ==> o == Outcome(s, Err(Wrap + fetchAt(s, height).msg), false)
    ensures o.consulted <==> (block(height).Ok? && fetchAt(s, height).Ok?
      && |fetchAt(s, height).value| != block(height).value.numTxs)
    ensures block(height).Ok? && fetchAt(s, height).Ok? && !o.consulted ==>
      o == Outcome(s, Ok(fetchAt(s, height).value), false)
    ensures o.consulted && service(height).Err? ==> o.result.Err? && o.store == s
    ensures o.consulted && service(height).Ok? ==>
      (o.result.Ok? <==> Replay(s, service(height).value, insert).Ok?)
    ensures o.consulted && o.result.Ok? ==>
      o.result.value == service(height).value && Replay(s, service(height).value, insert) == Ok(o.store)
    ensures o.consulted && service(height).Ok? && o.result.Err? ==>
      exists done: nat :: done < |service(height).value| && Replay(s, service(height).value[..done], insert) == Ok(o.store)
        && insert(o.store, service(height).value[done]).Err?
  {
    match block(height)
    case Err(e) => return Outcome(s, Err(Wrap + e), false);
    case Ok(blk) =>
      match fetchAt(s, height)
      case Err(e) => return Outcome(s, Err(Wrap + e), false);
      case Ok(existing) =>
        if |existing| == blk.numTxs {
          return Outcome(s, Ok(existing), false);
        }
        match service(height)
        case Err(e) => return Outcome(s, Err(Wrap + e), true);
        case Ok(txs) =>
          var t, done, err := InsertAll(s, txs, insert);
          match err
          case Some(e) => return Outcome(t, Err(Wrap + e), true);
          case None => return Outcome(t, Ok(txs), true);
  }
}
