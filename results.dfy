/** The tagged `Result<T, TError>` with its nested `Ok(Value)` and `Error(Reason)` variants and
    its `Match` dispatch. The class itself is not part of this model; its shape is the one its
    uses in ResultExtensions.cs, ResultLinqExtensions.cs and ResultAsyncExtensions.cs fix. */
module Results {

  /** `Result<T, E>`: either `Ok` with a success value or `Error` with a failure reason. */
  datatype Result<T, E> = Ok(value: T) | Error(reason: E)

  /** `Match(onOk, onError)`: exhaustive dispatch on the variant. */
  function Match<T, E, R>(result: Result<T, E>, onOk: T -> R, onError: E -> R): (r: R)
    ensures result.Ok? ==> r == onOk(result.value)
    ensures result.Error? ==> r == onError(result.reason)
  {
    match result
    case Ok(v) => onOk(v)
    case Error(e) => onError(e)
  }

  /** Matching with the two constructors rebuilds the result, so `Match` loses nothing. */
  lemma MatchWithConstructors<T, E>(result: Result<T, E>)
    ensures Match(result, (v: T) => Ok(v), (e: E) => Error(e)) == result
  {
  }

  /** `Match` calls only the handler of the variant it finds. */
  lemma MatchUsesOneHandler<T, E, R>(result: Result<T, E>, onOk: T -> R, onOk': T -> R,
                                     onError: E -> R, onError': E -> R)
    ensures result.Ok? ==> Match(result, onOk, onError) == Match(result, onOk, onError')
    ensures result.Error? ==> Match(result, onOk, onError) == Match(result, onOk', onError)
  {
  }
}
