/**
 * The indexing service's caching decorators. A read-through lookup asks the
 * repository first and falls back to the backing service, storing what the
 * service returns; a write-through loop stores every item the service
 * returns, in order, stopping at the first failure.
 */
module ReadThrough {
  import opened Wrappers

  /**
   * What a lookup leaves behind: the repository's new contents, the answer,
   * and whether the backing service was asked.
   */
  datatype Outcome<S, V> = Outcome(store: S, result: Result<V>, consulted: bool)

  /** The error prefixes one decorator puts on repository, service and insert errors. */
  datatype Wraps = Wraps(lookup: string, service: string, insert: string)

  /**
   * Cache-aside read of key h. `lookup` is the repository's answer for h
   * (an error, a miss, or a hit); `insert` stores a value in the repository.
   */
  function Lookup<S, K, V>(store: S, h: K, lookup: Result<Option<V>>, service: K -> Result<V>,
                           insert: (S, V) -> Result<S>, wraps: Wraps): (o: Outcome<S, V>)
    ensures lookup.Err? ==> o == Outcome(store, Err(wraps.lookup + lookup.msg), false)
    ensures lookup.Ok? && lookup.value.Some? ==> o == Outcome(store, Ok(lookup.value.value), false)
    ensures o.consulted <==> lookup == Ok(None)
    ensures o.consulted && service(h).Err? ==> o.store == store && o.result.Err?
    ensures o.consulted && service(h).Ok? ==>
      (o.result.Ok? <==> insert(store, service(h).value).Ok?)
    ensures o.result.Ok? && o.consulted ==>
      o.result.value == service(h).value && o.store == insert(store, service(h).value).value
    ensures o.result.Err? ==> o.store == store
  {
    match lookup
    case Err(e) => Outcome(store, Err(wraps.lookup + e), false)
    case Ok(Some(v)) => Outcome(store, Ok(v), false)
    case Ok(None) =>
      match service(h)
      case Err(e) => Outcome(store, Err(wraps.service + e), true)
      case Ok(v) =>
        match insert(store, v)
        case Err(e) => Outcome(store, Err(wraps.insert + e), true)
        case Ok(s') => Outcome(s', Ok(v), true)
  }

  /** The first `n` insertions of `items` into `s`, or the error of the first one that fails. */
  function Replay<S, T>(s: S, items: seq<T>, insert: (S, T) -> Result<S>): Result<S>
    decreases |items|
  {
    if |items| == 0 then Ok(s)
    else match Replay(s, items[..|items| - 1], insert)
      case Err(e) => Err(e)
      case Ok(t) => insert(t, items[|items| - 1])
  }

  /**
   * `for _, x := range items { if err := insert(x); err != nil { return err } }`:
   * inserts the items in order and stops at the first failure. `done` counts
   * the items stored before it; they stay stored.
   */
  method InsertAll<S, T>(s: S, items: seq<T>, insert: (S, T) -> Result<S>) returns (t: S, done: nat, err: Option<string>)
    ensures done <= |items|
    ensures Replay(s, items[..done], insert) == Ok(t)
    ensures err.None? <==> done == |items|
    ensures err.Some? ==> insert(t, items[done]) == Err(err.value)
    ensures err.None? <==> Replay(s, items, insert).Ok?
    ensures err.None? ==> Replay(s, items, insert) == Ok(t)
  {
    t, done, err := s, 0, None;
    while done < |items|
      invariant done <= |items|
      invariant Replay(s, items[..done], insert) == Ok(t)
    {
      assert items[..done + 1][..done] == items[..done];
      match insert(t, items[done])
      case Err(e) =>
        err := Some(e);
        ReplayFailsAfter(s, items, insert, done);
        return;
      case Ok(t') =>
        t := t';
        done := done + 1;
    }
    assert items[..done] == items;
  }

  /** Once an insertion fails, replaying any longer prefix fails too. */
  lemma {:induction false} ReplayFailsAfter<S, T>(s: S, items: seq<T>, insert: (S, T) -> Result<S>, k: nat)
    requires k < |items| && Replay(s, items[..k], insert).Ok?
    requires insert(Replay(s, items[..k], insert).value, items[k]).Err?
    ensures Replay(s, items, insert).Err?
    decreases |items|
  {
    if k == |items| - 1 {
      assert items[..|items| - 1] == items[..k];
    } else {
      assert items[..|items| - 1][..k] == items[..k];
      ReplayFailsAfter(s, items[..|items| - 1], insert, k);
    }
  }
}
