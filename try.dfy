/** `Try.Run` and `Try.RunAsync` of Try.cs, which turn a computation that may throw into a
    `Result<T, Exception>`. The computation is represented by its effect, so there is no exception
    machinery: it either returns a value or throws an exception. */
module Try {
  import opened Results

  /** A CLR exception, by its type name and message. */
  datatype Exception = Exception(typeName: string, message: string)

  /** The `Try<T>` type that the `Pattern` checks inspect: `Success` or `Failure` with an exception. */
  datatype Try<T> = Success(value: T) | Failure(exception: Exception)

  /** What calling `func()` does: return a value, or throw. */
  datatype Computation<T> = Returned(v: T) | Threw(ex: Exception)

  /** What `await func()` does: `func` throws before returning a task, or the task completes with a
      value, faults with an exception, or is cancelled. A cancelled task is awaited by re-throwing
      the cancellation exception it recorded (such as the `OperationCanceledException` of
      `ThrowIfCancellationRequested`), or a fresh `TaskCanceledException` when it recorded none
      (as with `Task.FromCanceled`). `canceledWith` is the exception that the await throws. */
  datatype AsyncComputation<T> =
    | ThrowsBeforeTask(thrown: Exception)
    | Completes(result: T)
    | Faults(fault: Exception)
    | IsCanceled(canceledWith: Exception)

  /** `Run(func)`: `Ok` with the returned value, or `Error` with exactly the exception thrown. It never
      throws itself. */
  function Run<T>(func: Computation<T>): (r: Result<T, Exception>)
    ensures r.Ok? <==> func.Returned?
    ensures func.Returned? ==> r.value == func.v
    ensures func.Threw? ==> r.reason == func.ex
  {
    match func
    case Returned(v) => Ok(v)
    case Threw(ex) => Error(ex)
  }

  /** `RunAsync(func)`: the `catch` around `await func()` captures a synchronous throw, a fault and
      the cancellation alike, so the returned task always completes with a result. */
  function RunAsync<T>(func: AsyncComputation<T>): (r: Result<T, Exception>)
    ensures r.Ok? <==> func.Completes?
    ensures func.Completes? ==> r.value == func.result
    ensures func.ThrowsBeforeTask? ==> r.reason == func.thrown
    ensures func.Faults? ==> r.reason == func.fault
    ensures func.IsCanceled? ==> r.reason == func.canceledWith
  {
    match func
    case ThrowsBeforeTask(ex) => Error(ex)
    case Completes(v) => Ok(v)
    case Faults(ex) => Error(ex)
    case IsCanceled(ex) => Error(ex)
  }

  /** The synchronous computation that behaves as the awaited one does, once awaited. */
  function Awaited<T>(func: AsyncComputation<T>): Computation<T>
  {
    match func
    case ThrowsBeforeTask(ex) => Threw(ex)
    case Completes(v) => Returned(v)
    case Faults(ex) => Threw(ex)
    case IsCanceled(ex) => Threw(ex)
  }

  /** `Run` loses nothing: matching its result back into a computation gives the original. */
  lemma RunIsReversible<T>(func: Computation<T>)
    ensures Match(Run(func), (v: T) => Returned(v), (ex: Exception) => Computation<T>.Threw(ex)) == func
  {
  }

  /** `RunAsync` has the contract of `Run` on the awaited outcome. */
  lemma RunAsyncIsRunOfAwaited<T>(func: AsyncComputation<T>)
    ensures RunAsync(func) == Run(Awaited(func))
  {
  }
}
