/**
 * The monitoring service's in-memory repositories, `BlockTimesRepo` and
 * `BlockRepo`: both are a map from block height to a value, where a height
 * that was never set reads as the zero value and "does not exist".
 */
module MonitoringRepos {
  import Pocket

  datatype Repo<V> = Repo(store: map<nat, V>)

  /** `NewBlockTimesRepo` / `NewBlockRepo`: nothing is stored at any height. */
  function NewRepo<V(!new)>(): (r: Repo<V>)
    ensures forall h: nat, zero: V :: Get(r, h, zero) == (zero, false)
  {
    Repo(map[])
  }

  /** `Get(height)`: the stored value and true, or the zero value and false. */
  function Get<V>(r: Repo<V>, h: nat, zero: V): (res: (V, bool))
    ensures res.1 <==> h in r.store
    ensures res.1 ==> res.0 == r.store[h]
    ensures !res.1 ==> res.0 == zero
  {
    if h in r.store then (r.store[h], true) else (zero, false)
  }

  /** `Set(height, v)`: afterwards the height reads v; every other height reads as before. */
  function Set<V(!new)>(r: Repo<V>, h: nat, v: V): (r': Repo<V>)
    ensures forall zero: V :: Get(r', h, zero) == (v, true)
    ensures forall h': nat, zero: V :: h' != h ==> Get(r', h', zero) == Get(r, h', zero)
  {
    Repo(r.store[h := v])
  }

  /** The block-time repository reads a missing height as Go's zero time. */
  function GetBlockTime(r: Repo<Pocket.Time>, h: nat): (res: (Pocket.Time, bool))
    ensures !res.1 ==> res.0 == Pocket.ZeroTime
    ensures res.1 <==> h in r.store
  {
    Get(r, h, Pocket.ZeroTime)
  }

  /** Setting a height twice keeps only the second value: `Set` overwrites without error. */
  lemma SetOverwrites<V(!new)>(r: Repo<V>, h: nat, v1: V, v2: V, zero: V)
    ensures Get(Set(Set(r, h, v1), h, v2), h, zero) == (v2, true)
    ensures forall h': nat :: Get(Set(Set(r, h, v1), h, v2), h', zero) == Get(Set(r, h, v2), h', zero)
  {
    forall h': nat ensures Get(Set(Set(r, h, v1), h, v2), h', zero) == Get(Set(r, h, v2), h', zero) {
      if h' != h {
        assert Get(Set(Set(r, h, v1), h, v2), h', zero) == Get(Set(r, h, v1), h', zero);
      }
    }
  }
}
