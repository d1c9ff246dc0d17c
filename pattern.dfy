/** The variant tests of Pattern.cs over `Option`, `Result` and `Try`. Each test holds exactly on
    the values built with its constructor, and of the two tests on one type exactly one holds. */
module Pattern {
  import opened Options
  import opened Results
  import Try

  /** `IsSome(option)`. */
  predicate IsSome<T>(option: Option<T>)
    ensures IsSome(option) <==> option != None
  {
    option.Some?
  }

  /** `IsNone(option)`. */
  predicate IsNone<T>(option: Option<T>)
    ensures IsNone(option) <==> option == None
    ensures IsNone(option) != IsSome(option)
  {
    option.None?
  }

  /** `IsOk(result)`. */
  predicate IsOk<T, E>(result: Result<T, E>)
    ensures IsOk(result) <==> !result.Error?
  {
    result.Ok?
  }

  /** `IsError(result)`. */
  predicate IsError<T, E>(result: Result<T, E>)
    ensures IsError(result) <==> !result.Ok?
    ensures IsError(result) != IsOk(result)
  {
    result.Error?
  }

  /** `IsSuccess(result)` on a `Try<T>`. */
  predicate IsSuccess<T>(result: Try.Try<T>)
    ensures IsSuccess(result) <==> !result.Failure?
  {
    result.Success?
  }

  /** `IsFailure(result)` on a `Try<T>`. */
  predicate IsFailure<T>(result: Try.Try<T>)
    ensures IsFailure(result) <==> !result.Success?
    ensures IsFailure(result) != IsSuccess(result)
  {
    result.Failure?
  }
}
