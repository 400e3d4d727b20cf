/**
 * The indexing service's caching parameter service: parameters at a height
 * come from the repository when present and are otherwise fetched and stored.
 */
module ParamCache {
  import opened Wrappers
  import opened IndexingPocket
  import opened ReadThrough

  /** The parameter table: one row per height, the height being its primary key. */
  type ParamStore = map<int, ParamGroups>

  /** The database's own wording for a primary-key violation stands here as a fixed text. */
  const DuplicateKey := "duplicate primary key"

  /** `InsertParams`: a second row for the same height violates the primary key. */
  function InsertParams(s: ParamStore, p: ParamGroups): (r: Result<ParamStore>)
    ensures r.Err? <==> p.height in s
    ensures r.Ok? ==> p.height in r.value && r.value[p.height] == p
    ensures r.Ok? ==> forall k :: k != p.height ==> (k in r.value <==> k in s)
    ensures r.Ok? ==> forall k :: k != p.height && k in s ==> r.value[k] == s[k]
  {
    if p.height in s then Err("blocksRepo.InsertBlock: " + DuplicateKey)
    else Ok(s[p.height := p])
  }

  /** `AllParams`: whatever the repository holds; the backing service is never asked. */
  function AllParams(s: ParamStore, fault: Option<string>): (o: Outcome<ParamStore, ParamStore>)
    ensures !o.consulted && o.store == s
    ensures o.result.Ok? <==> fault.None?
    ensures o.result.Ok? ==> o.result.value == s
  {
    match fault
    case Some(e) => Outcome(s, Err(e), false)
    case None => Outcome(s, Ok(s), false)
  }

  const ParamWraps := Wraps("", "", "insertParams: ")

  /**
   * `Params(h)`: stored parameters are returned without asking the service;
   * missing ones are fetched and inserted. Repository, service and insert
   * errors all propagate. `fault` stands for a failing repository read.
   */
  function Params(s: ParamStore, h: int, fault: Option<string>, service: int -> Result<ParamGroups>): (o: Outcome<ParamStore, ParamGroups>)
    ensures fault.Some? ==> o == Outcome(s, Err(fault.value), false)
    ensures fault.None? && h in s ==> o == Outcome(s, Ok(s[h]), false)
    ensures o.consulted <==> fault.None? && h !in s
    ensures o.consulted && service(h).Err? ==> o == Outcome(s, Err(service(h).msg), true)
    ensures o.consulted && service(h).Ok? ==> (o.result.Ok? <==> service(h).value.height !in s)
    ensures o.consulted && o.result.Ok? ==>
      o.result.value == service(h).value && o.store == s[service(h).value.height := service(h).value]
    ensures o.result.Err? ==> o.store == s
  {
    var lookup := match fault
      case Some(e) => Err(e)
      case None => if h in s then Ok(Some(s[h])) else Ok(None);
    Lookup(s, h, lookup, service, (t: ParamStore, p: ParamGroups) => InsertParams(t, p), ParamWraps)
  }

  /** When the service stamps the parameters with the requested height, a successful `Params(h)` leaves them stored. */
  lemma ParamsCached(s: ParamStore, h: int, service: int -> Result<ParamGroups>, service2: int -> Result<ParamGroups>)
    requires service(h).Ok? ==> service(h).value.height == h
    requires Params(s, h, None, service).result.Ok?
    ensures h in Params(s, h, None, service).store
    ensures Params(Params(s, h, None, service).store, h, None, service2)
      == Outcome(Params(s, h, None, service).store, Params(s, h, None, service).result, false)
  {
  }
}
