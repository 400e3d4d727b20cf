/** Failure-carrying result types shared by every module of the model. */
module Wrappers {

  /** An optional value: Go's `(v, ok)` pairs, JS `undefined`, a nil pointer. */
  datatype Option<+T> = None | Some(value: T)

  /** The outcome of a Go call returning `(T, error)`: the value, or the error text. */
  datatype Result<+T> = Ok(value: T) | Err(msg: string)

  /** Applies f to each element in order: all the results, or the error of the first element that fails. */
  function MapAll<A, B>(xs: seq<A>, f: A -> Result<B>): (r: Result<seq<B>>)
    ensures r.Ok? <==> forall i :: 0 <= i < |xs| ==> f(xs[i]).Ok?
    ensures r.Ok? ==> |r.value| == |xs| && forall i :: 0 <= i < |xs| ==> r.value[i] == f(xs[i]).value
    ensures r.Err? ==> exists i :: (0 <= i < |xs| && f(xs[i]).Err? && r.msg == f(xs[i]).msg
      && forall j :: 0 <= j < i ==> f(xs[j]).Ok?)
    decreases |xs|
  {
    if |xs| == 0 then Ok([])
    else match f(xs[0])
      case Err(e) => Err(e)
      case Ok(y) =>
        match MapAll(xs[1..], f)
        case Err(e) =>
          assert exists i :: 1 <= i < |xs| && f(xs[i]).Err? && e == f(xs[i]).msg && forall j :: 0 <= j < i ==> f(xs[j]).Ok? by {
            var i :| 0 <= i < |xs| - 1 && f(xs[1..][i]).Err? && e == f(xs[1..][i]).msg && forall j :: 0 <= j < i ==> f(xs[1..][j]).Ok?;
            assert xs[1..][i] == xs[i + 1];
            forall j | 0 <= j < i + 1 ensures f(xs[j]).Ok? {
              if j > 0 { assert xs[j] == xs[1..][j - 1]; }
            }
          }
          Err(e)
        case Ok(rest) => Ok([y] + rest)
  }
}
