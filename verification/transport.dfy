/**
 * The monitoring service's HTTP request decoders: path variables and query
 * parameters to the endpoint request variants.
 */
module Transport {
  import opened Wrappers
  import opened Text
  import opened Endpoints

  /** `url.Values.Get`: the parameter's value, or "" when it is absent. */
  function QueryGet(query: map<string, string>, k: string): (v: string)
    ensures k !in query ==> v == ""
    ensures k in query ==> v == query[k]
  {
    if k in query then query[k] else ""
  }

  /** An optional unsigned 32-bit query parameter: empty means 0, anything else must parse. */
  function OptionalUint32(s: string): (r: Result<nat>)
    ensures s == "" ==> r == Ok(0)
    ensures s != "" ==> (r.Ok? <==> AllDigits(s) && DigitsValue(s) < Pow32)
    ensures s != "" && r.Ok? ==> r.value == DigitsValue(s)
    ensures r.Ok? ==> r.value < Pow32
  {
    if s == "" then Ok(0)
    else
      ParseUintSpec(s, Pow32);
      match ParseUint(s, Pow32)
      case Err(e) => Err("decodeAccountTransactionsRequest: " + e)
      case Ok(n) => Ok(n)
  }

  function DecodeTransactionRequest(vars: map<string, string>): (r: Result<Request>)
    ensures r.Ok? <==> "hash" in vars
    ensures r.Ok? ==> r.value == TransactionRequest(vars["hash"])
  {
    if "hash" !in vars then Err("decodeTransactionRequest: required param 'hash' not found")
    else Ok(TransactionRequest(vars["hash"]))
  }

  /**
   * `decodeAccountTransactionsRequest`: the address path variable is required;
   * `page` and `per_page` default to 0 and otherwise must be decimal uint32;
   * an empty `sort` becomes "asc".
   */
  function DecodeAccountTransactionsRequest(vars: map<string, string>, query: map<string, string>): (r: Result<Request>)
    ensures r.Ok? <==> ("address" in vars && OptionalUint32(QueryGet(query, "page")).Ok?
      && OptionalUint32(QueryGet(query, "per_page")).Ok?)
    ensures r.Ok? ==> r.value.AccountTransactionsRequest? && r.value.address == vars["address"]
    ensures r.Ok? ==> r.value.page == OptionalUint32(QueryGet(query, "page")).value
    ensures r.Ok? ==> r.value.perPage == OptionalUint32(QueryGet(query, "per_page")).value
    ensures r.Ok? ==> r.value.sort == if QueryGet(query, "sort") == "" then "asc" else QueryGet(query, "sort")
  {
    if "address" !in vars then Err("decodeTransactionRequest: required param 'address' not found")
    else match OptionalUint32(QueryGet(query, "page"))
      case Err(e) => Err(e)
      case Ok(page) =>
        match OptionalUint32(QueryGet(query, "per_page"))
        case Err(e) => Err(e)
        case Ok(perPage) =>
          var sort := QueryGet(query, "sort");
          Ok(AccountTransactionsRequest(vars["address"], page, perPage, if sort == "" then "asc" else sort))
  }

  function DecodeNodeRequest(vars: map<string, string>): (r: Result<Request>)
    ensures r.Ok? <==> "address" in vars
    ensures r.Ok? ==> r.value == NodeRequest(vars["address"])
  {
    if "address" !in vars then Err("decodeNodeRequest: required param 'address' not found")
    else Ok(NodeRequest(vars["address"]))
  }

  function DecodeMonthlyRewardsRequest(vars: map<string, string>): (r: Result<Request>)
    ensures r.Ok? <==> "address" in vars
    ensures r.Ok? ==> r.value == MonthlyRewardsRequest(vars["address"])
  {
    if "address" !in vars then Err("decodeMonthlyRewardsRequest: required param 'address' not found")
    else Ok(MonthlyRewardsRequest(vars["address"]))
  }

  /** Without query parameters the request asks for page 0 of 0 in ascending order. */
  lemma AccountTransactionsDefaults(vars: map<string, string>)
    requires "address" in vars
    ensures DecodeAccountTransactionsRequest(vars, map[]) == Ok(AccountTransactionsRequest(vars["address"], 0, 0, "asc"))
  {
  }

  /** A canonical decimal page number below 2^32 decodes to itself; 2^32 is rejected. */
  lemma PageRoundTrip(vars: map<string, string>, n: nat)
    requires "address" in vars
    ensures n < Pow32 ==> (DecodeAccountTransactionsRequest(vars, map["page" := DecimalString(n)]).Ok?
      && DecodeAccountTransactionsRequest(vars, map["page" := DecimalString(n)]).value.page == n)
    ensures n >= Pow32 ==> DecodeAccountTransactionsRequest(vars, map["page" := DecimalString(n)]).Err?
  {
    var q := map["page" := DecimalString(n)];
    assert QueryGet(q, "page") == DecimalString(n);
    assert QueryGet(q, "per_page") == "" by { assert "per_page" != "page"; }
    assert QueryGet(q, "sort") == "" by { assert "sort" != "page"; }
  }

  /** A non-empty sort is passed on unchanged, whatever it says. */
  lemma SortPassedThrough(vars: map<string, string>, sort: string)
    requires "address" in vars && sort != ""
    ensures DecodeAccountTransactionsRequest(vars, map["sort" := sort]) == Ok(AccountTransactionsRequest(vars["address"], 0, 0, sort))
  {
    var q := map["sort" := sort];
    assert QueryGet(q, "page") == "" by { assert "page" != "sort"; }
    assert QueryGet(q, "per_page") == "" by { assert "per_page" != "sort"; }
  }
}
