/** Outcomes of generation steps: the two diagnostics the generator throws on
    purpose, and the JavaScript TypeError it runs into on malformed input. */
module Diagnostics {

  datatype Option<+T> = None | Some(value: T)

  datatype GenError =
    | TuplesNotSupported(typ: string)
    | UnknownType(typ: string)
      /** A JavaScript TypeError: the source dereferences something undefined
          (the first character of an empty type name, a missing fold entry). */
    | TypeError(what: string)

  /** The text of the thrown Error. */
  function Message(e: GenError): (m: string)
    ensures e.TuplesNotSupported? ==> m == "Tuples not supported: " + e.typ
    ensures e.UnknownType? ==> m == "Unknown type: " + e.typ
  {
    match e
    case TuplesNotSupported(t) => "Tuples not supported: " + t
    case UnknownType(t) => "Unknown type: " + t
    case TypeError(w) => w
  }

  /** A value, or the error the source would throw instead of returning. */
  datatype Result<+T> = Success(value: T) | Failure(error: GenError) {

    predicate IsFailure() {
      Failure?
    }

    function PropagateFailure<U>(): Result<U>
      requires Failure?
    {
      Failure(error)
    }

    function Extract(): T
      requires Success?
    {
      value
    }
  }

  /** Array.prototype.map with a callback that may throw: the first element
      whose conversion throws decides the error. */
  function MapAll<T, U>(xs: seq<T>, f: T -> Result<U>): (r: Result<seq<U>>)
    ensures r.Success? <==> forall k :: 0 <= k < |xs| ==> f(xs[k]).Success?
    ensures r.Success? ==> |r.value| == |xs| && forall k :: 0 <= k < |xs| ==> r.value[k] == f(xs[k]).value
    ensures r.Failure? ==> exists k :: 0 <= k < |xs| && f(xs[k]) == Failure(r.error)
                                     && forall j :: 0 <= j < k ==> f(xs[j]).Success?
  {
    if |xs| == 0 then Success([])
    else
      match f(xs[0])
      case Failure(e) => Failure(e)
      case Success(y) =>
        match MapAll(xs[1..], f)
        case Failure(e) =>
          ghost var k :| 0 <= k < |xs| - 1 && f(xs[1..][k]) == Failure(e)
                         && forall j :: 0 <= j < k ==> f(xs[1..][j]).Success?;
          assert f(xs[k + 1]) == Failure(e);
          assert forall j :: 1 <= j < k + 1 ==> f(xs[j]) == f(xs[1..][j - 1]);
          Failure(e)
        case Success(ys) =>
          assert forall k :: 1 <= k < |xs| ==> f(xs[k]) == f(xs[1..][k - 1]);
          Success([y] + ys)
  }
}
