/** Rust's `Option` and `Result`, and collecting a sequence of results. */
module Results {

  datatype Option<+T> = None | Some(value: T)

  datatype Result<+T, +E> = Ok(value: T) | Err(error: E)

  /** The position of the first `Err` in `xs`, or `|xs|` when every element is `Ok`. */
  function FirstErr<T, E>(xs: seq<Result<T, E>>): (k: nat)
    ensures k <= |xs|
    ensures forall i :: 0 <= i < k ==> xs[i].Ok?
    ensures k < |xs| ==> xs[k].Err?
  {
    if |xs| == 0 then 0
    else if xs[0].Err? then 0
    else 1 + FirstErr(xs[1..])
  }

  /** `collect::<Result<Vec<_>, _>>()`: all values when every element is `Ok`,
      otherwise the first error met. */
  function Collect<T, E>(xs: seq<Result<T, E>>): (r: Result<seq<T>, E>)
    ensures r.Ok? <==> forall i :: 0 <= i < |xs| ==> xs[i].Ok?
    ensures r.Ok? ==> |r.value| == |xs| && forall i :: 0 <= i < |xs| ==> xs[i] == Ok(r.value[i])
    ensures r.Err? ==> FirstErr(xs) < |xs| && xs[FirstErr(xs)] == Err(r.error)
  {
    if |xs| == 0 then Ok([])
    else match xs[0]
      case Err(e) => Err(e)
      case Ok(v) =>
        match Collect(xs[1..])
        case Ok(vs) => Ok([v] + vs)
        case Err(e) => Err(e)
  }
}
