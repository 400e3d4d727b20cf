/** The indexing service's parameter service: the provider's parameter lists turned into maps by key. */
module ParamService {
  import opened Wrappers
  import opened Text
  import opened IndexingPocket

  /** One entry of a provider parameter group. */
  datatype ProviderParam = ProviderParam(key: string, value: string)

  type ProviderGroup = seq<ProviderParam>

  datatype ProviderAllParams = ProviderAllParams(
    appParams: ProviderGroup, authParams: ProviderGroup, govParams: ProviderGroup,
    nodeParams: ProviderGroup, pocketParams: ProviderGroup)

  /** The position of the last entry of g with key k. */
  predicate LastWithKey(g: ProviderGroup, k: string, i: int) {
    0 <= i < |g| && g[i].key == k && forall j :: i < j < |g| ==> g[j].key != k
  }

  /**
   * `paramGroupFromProviderGroup`: one entry per key of the group, holding the
   * key and the value of the last entry with that key.
   */
  function GroupFromProvider(g: ProviderGroup): (m: ParamsByName)
    ensures forall k :: k in m <==> exists i :: 0 <= i < |g| && g[i].key == k
    ensures forall k :: k in m ==> m[k].key == k && exists i :: LastWithKey(g, k, i) && m[k].value == g[i].value
    decreases |g|
  {
    if |g| == 0 then map[]
    else
      var n := |g| - 1;
      var m := GroupFromProvider(g[..n]);
      var m' := m[g[n].key := Param(g[n].key, g[n].value)];
      GroupFromStep(g, m, m');
      m'
  }

  /** One more entry: the map of the group without it, updated at the entry's key. */
  lemma GroupFromStep(g: ProviderGroup, m: ParamsByName, m': ParamsByName)
    requires 0 < |g| && m' == m[g[|g| - 1].key := Param(g[|g| - 1].key, g[|g| - 1].value)]
    requires forall k :: k in m <==> exists i :: 0 <= i < |g| - 1 && g[i].key == k
    requires forall k :: k in m ==> m[k].key == k && exists i :: LastWithKey(g[..|g| - 1], k, i) && m[k].value == g[i].value
    ensures forall k :: k in m' <==> exists i :: 0 <= i < |g| && g[i].key == k
    ensures forall k :: k in m' ==> m'[k].key == k && exists i :: LastWithKey(g, k, i) && m'[k].value == g[i].value
  {
    var n := |g| - 1;
    var last := g[n];
    forall k | k in m' ensures exists i :: LastWithKey(g, k, i) && m'[k].value == g[i].value {
      if k == last.key {
        assert LastWithKey(g, k, n);
      } else {
        var i :| LastWithKey(g[..n], k, i) && m[k].value == g[i].value;
        assert LastWithKey(g, k, i);
      }
    }
    forall k ensures k in m' <==> exists i :: 0 <= i < |g| && g[i].key == k {
      if k in m && k != last.key {
        var i :| 0 <= i < n && g[i].key == k;
        assert 0 <= i < |g| && g[i].key == k;
      }
    }
  }

  /** An empty group gives an empty map. */
  lemma GroupFromEmpty()
    ensures GroupFromProvider([]) == map[]
  {
  }

  /** Two entries with the same key: the later value is kept. */
  lemma LaterEntryWins(k: string, v1: string, v2: string)
    ensures GroupFromProvider([ProviderParam(k, v1), ProviderParam(k, v2)]) == map[k := Param(k, v2)]
  {
    var g := [ProviderParam(k, v1), ProviderParam(k, v2)];
    var m := GroupFromProvider(g);
    assert g[..1] == [ProviderParam(k, v1)];
    assert g[..1][..0] == [];
  }

  /**
   * `Params(h)`: a provider error or a missing answer is an error; otherwise
   * each of the five groups is converted on its own and the result carries h.
   */
  function Params(h: int, provider: int -> Result<Option<ProviderAllParams>>): (r: Result<ParamGroups>)
    ensures r.Ok? <==> provider(h).Ok? && provider(h).value.Some?
    ensures provider(h).Err? ==> r == Err("Params: " + provider(h).msg)
    ensures provider(h) == Ok(None) ==> r == Err("params not found at height " + IntString(h))
    ensures r.Ok? ==> (r.value.height == h
      && r.value.appParams == GroupFromProvider(provider(h).value.value.appParams)
      && r.value.authParams == GroupFromProvider(provider(h).value.value.authParams)
      && r.value.govParams == GroupFromProvider(provider(h).value.value.govParams)
      && r.value.nodeParams == GroupFromProvider(provider(h).value.value.nodeParams)
      && r.value.pocketParams == GroupFromProvider(provider(h).value.value.pocketParams))
  {
    match provider(h)
    case Err(e) => Err("Params: " + e)
    case Ok(None) => Err("params not found at height " + IntString(h))
    case Ok(Some(p)) =>
      Ok(ParamGroups(h, GroupFromProvider(p.appParams), GroupFromProvider(p.authParams), GroupFromProvider(p.govParams),
        GroupFromProvider(p.nodeParams), GroupFromProvider(p.pocketParams)))
  }

  /** `AllParams` of the uncached service is not implemented and always fails. */
  function AllParams(): (r: Result<map<int, ParamGroups>>)
    ensures r.Err?
  {
    Err("NOT IMPLEMENTED")
  }
}
