/** The indexing service's caching node service: every node the service returns is upserted, in order. */
module NodeCache {
  import opened Wrappers
  import opened IndexingPocket
  import opened ReadThrough

  /**
   * `NodesAtHeight(height)` over a repository of state S: a service error is
   * returned with nothing upserted; otherwise the nodes are upserted in order,
   * the first failure ends the loop, and on success the service's list is
   * returned unchanged.
   */
  method NodesAtHeight<S>(s: S, height: int, service: int -> Result<seq<Node>>, upsert: (S, Node) -> Result<S>)
    returns (o: Outcome<S, seq<Node>>)
    ensures o.consulted
    ensures service(height).Err? ==> o == Outcome(s, Err(service(height).msg), true)
    ensures service(height).Ok? ==> (o.result.Ok? <==> Replay(s, service(height).value, upsert).Ok?)
    ensures o.result.Ok? ==> o.result.value == service(height).value && Replay(s, service(height).value, upsert) == Ok(o.store)
    ensures service(height).Ok? && o.result.Err? ==>
      exists done: nat :: done < |service(height).value| && Replay(s, service(height).value[..done], upsert) == Ok(o.store)
        && upsert(o.store, service(height).value[done]) == Err(o.result.msg)
  {
    match service(height)
    case Err(e) => return Outcome(s, Err(e), true);
    case Ok(nodes) =>
      var t, done, err := InsertAll(s, nodes, upsert);
      match err
      case Some(e) => return Outcome(t, Err(e), true);
      case None => return Outcome(t, Ok(nodes), true);
  }
}
