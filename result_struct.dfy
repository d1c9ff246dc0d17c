/** The flag-based `readonly struct Result<TError, TSuccess>` of Result.cs. Unlike the tagged
    `Result`, its error type comes first, and it stores both a `Value` and an `Error` slot beside an
    `IsSuccess` flag. Its constructor is private; values come from `Success`, `Failure`, the two
    implicit lifts and the zero-initialised default. */
module ResultStruct {

  /** A get-only property of the struct: still `default`, or set to a value. */
  datatype Slot<T> = Default | Assigned(v: T)

  /** `Result<TError, TSuccess>`: the fields `Value`, `Error` and `IsSuccess`. */
  datatype ResultStruct<E, S> = ResultStruct(value: Slot<S>, error: Slot<E>, isSuccess: bool)

  /** `IsFailure => !IsSuccess`. */
  predicate IsFailure<E, S>(r: ResultStruct<E, S>)
  {
    !r.isSuccess
  }

  /** `new Result<TError, TSuccess>()`: every field at its default, so `IsSuccess` is false. */
  function DefaultResult<E, S>(): (r: ResultStruct<E, S>)
    ensures !r.isSuccess && IsFailure(r)
    ensures r.value == Default && r.error == Default
  {
    ResultStruct(Default, Default, false)
  }

  /** `Success(value)`: a successful result holding `value`, its error left at default. */
  function Success<E, S>(value: S): (r: ResultStruct<E, S>)
    ensures r.isSuccess && !IsFailure(r)
    ensures r.value == Assigned(value)
    ensures r.error == Default
  {
    ResultStruct(Assigned(value), Default, true)
  }

  /** `Failure(error)`: a failed result holding `error`, its value left at default. */
  function Failure<E, S>(error: E): (r: ResultStruct<E, S>)
    ensures !r.isSuccess && IsFailure(r)
    ensures r.error == Assigned(error)
    ensures r.value == Default
  {
    ResultStruct(Default, Assigned(error), false)
  }

  /** Implicit operator from a success value. */
  function FromSuccess<E, S>(success: S): (r: ResultStruct<E, S>)
    ensures r == Success(success)
  {
    ResultStruct(Assigned(success), Default, true)
  }

  /** Implicit operator from an error value. */
  function FromError<E, S>(error: E): (r: ResultStruct<E, S>)
    ensures r == Failure(error)
  {
    ResultStruct(Default, Assigned(error), false)
  }

  /** The public ways of obtaining a `Result<TError, TSuccess>`. */
  datatype Origin<E, S> =
    | ViaSuccess(s: S)
    | ViaFailure(e: E)
    | ViaLiftSuccess(s: S)
    | ViaLiftError(e: E)
    | ViaDefault

  /** The value each way of obtaining a result produces. */
  function Build<E, S>(origin: Origin<E, S>): ResultStruct<E, S>
  {
    match origin
    case ViaSuccess(s) => Success(s)
    case ViaFailure(e) => Failure(e)
    case ViaLiftSuccess(s) => FromSuccess(s)
    case ViaLiftError(e) => FromError(e)
    case ViaDefault => DefaultResult()
  }

  /** Every obtainable result has one of three shapes: successful with a value slot set and the
      error slot at default, failed with the error slot set and the value slot at default, or the
      default with neither set. A slot set to the type's own default value is, in C#, the same as
      one left at default; the model keeps the two apart. */
  lemma ObtainableShapes<E, S>(origin: Origin<E, S>)
    ensures var r := Build(origin);
            (r.isSuccess && r.value.Assigned? && r.error == Default)
            || (!r.isSuccess && r.value == Default && r.error.Assigned?)
            || r == DefaultResult()
  {
  }

  /** `IsFailure` holds exactly for the results obtained as `Failure`, through the error lift, or
      as the default; it fails exactly for those obtained as `Success` or through the success
      lift. */
  lemma FailureExactlyWhenNotBuiltAsSuccess<E, S>(origin: Origin<E, S>)
    ensures IsFailure(Build(origin)) <==> !(origin.ViaSuccess? || origin.ViaLiftSuccess?)
  {
  }

  /** The first type parameter is the error type and the second the success type: with
      `Result<int, string>`, every string lifts to a success holding it and every int to a failure
      holding it. */
  lemma ErrorTypeComesFirst(text: string, code: int)
    ensures FromSuccess<int, string>(text).isSuccess
    ensures FromSuccess<int, string>(text).value == Assigned(text)
    ensures !FromError<int, string>(code).isSuccess
    ensures FromError<int, string>(code).error == Assigned(code)
    ensures FromError<int, string>(code).value == Default
  {
  }
}
