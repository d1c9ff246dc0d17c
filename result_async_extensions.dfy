/** `MapAsync`, `BindAsync` and `MatchAsync` of ResultAsyncExtensions.cs. Each checks the
    cancellation token, awaits its carrier once and then dispatches. Scheduling is not modelled: a
    `ValueTask` is represented by what awaiting it yields, and the token by whether cancellation has
    been requested when it is checked. */
module ResultAsyncExtensions {
  import opened Results
  import ResultExtensions

  /** What awaiting a task yields: it was cancelled (an `OperationCanceledException` surfaces), or it
      completed with a value. */
  datatype Awaited<R> = Cancelled | Done(value: R)

  /** `await task` followed by a continuation on the value; a cancelled task stops the chain. */
  function Await<R, S>(task: Awaited<R>, continuation: R -> Awaited<S>): (r: Awaited<S>)
    ensures task.Cancelled? ==> r.Cancelled?
    ensures task.Done? ==> r == continuation(task.value)
  {
    match task
    case Cancelled => Cancelled
    case Done(v) => continuation(v)
  }

  /** `MapAsync(task, map, token)`. */
  function MapAsync<T, E, U>(task: Awaited<Result<T, E>>, mapping: T -> U, cancellationRequested: bool)
    : (r: Awaited<Result<U, E>>)
    ensures cancellationRequested ==> r.Cancelled?
    ensures !cancellationRequested && task.Done? ==> r == Done(ResultExtensions.Map(task.value, mapping))
    ensures task.Cancelled? ==> r.Cancelled?
  {
    if cancellationRequested then Cancelled
    else Await(task, (result: Result<T, E>) => Done(ResultExtensions.Map(result, mapping)))
  }

  /** `BindAsync(task, bind, token)`: on `Ok` the task returned by `bind` is awaited in turn; an
      error is rebuilt with the same reason. */
  function BindAsync<T, E, U>(task: Awaited<Result<T, E>>, bind: T -> Awaited<Result<U, E>>,
                              cancellationRequested: bool): (r: Awaited<Result<U, E>>)
    ensures cancellationRequested ==> r.Cancelled?
    ensures !cancellationRequested && task.Done? && task.value.Ok? ==> r == bind(task.value.value)
    ensures !cancellationRequested && task.Done? && task.value.Error? ==> r == Done(Error(task.value.reason))
    ensures task.Cancelled? ==> r.Cancelled?
  {
    if cancellationRequested then Cancelled
    else Await(task, (result: Result<T, E>) =>
                       if result.Ok? then bind(result.value) else Done(Result<U, E>.Error(result.reason)))
  }

  /** `MatchAsync(task, onSuccess, onError, token)`. */
  function MatchAsync<T, E, R>(task: Awaited<Result<T, E>>, onSuccess: T -> R, onError: E -> R,
                               cancellationRequested: bool): (r: Awaited<R>)
    ensures cancellationRequested ==> r.Cancelled?
    ensures !cancellationRequested && task.Done? ==> r == Done(Match(task.value, onSuccess, onError))
    ensures task.Cancelled? ==> r.Cancelled?
  {
    if cancellationRequested then Cancelled
    else Await(task, (result: Result<T, E>) => Done(Match(result, onSuccess, onError)))
  }

  /** Cancellation requested at entry decides the outcome before the carrier is looked at and
      without any continuation. */
  lemma CancelledBeforeAwait<T, E, U, R>(t: Awaited<Result<T, E>>, t': Awaited<Result<T, E>>,
                                         f: T -> U, b: T -> Awaited<Result<U, E>>, onOk: T -> R, onErr: E -> R)
    ensures MapAsync(t, f, true) == MapAsync(t', f, true) == Cancelled
    ensures BindAsync(t, b, true) == BindAsync(t', b, true) == Cancelled
    ensures MatchAsync(t, onOk, onErr, true) == MatchAsync(t', onOk, onErr, true) == Cancelled
  {
  }

  /** `BindAsync` on an error never calls `bind`. */
  lemma BindAsyncErrorIgnoresFunction<T, E, U>(reason: E, f: T -> Awaited<Result<U, E>>,
                                               g: T -> Awaited<Result<U, E>>)
    ensures BindAsync(Done(Error(reason)), f, false) == BindAsync(Done(Error(reason)), g, false)
                                                  == Done(Error(reason))
  {
  }

  /** With a `bind` whose task completes immediately, `BindAsync` is the synchronous `Bind`. */
  lemma BindAsyncAgreesWithBind<T, E, U>(result: Result<T, E>, f: T -> Result<U, E>)
    ensures BindAsync(Done(result), (x: T) => Done(f(x)), false) == Done(ResultExtensions.Bind(result, f))
  {
  }

  /** `MapAsync` is `BindAsync` with a continuation that always succeeds at once. */
  lemma MapAsyncIsBindAsync<T, E, U>(task: Awaited<Result<T, E>>, f: T -> U, cancellationRequested: bool)
    ensures MapAsync(task, f, cancellationRequested)
         == BindAsync(task, (x: T) => Done(Result<U, E>.Ok(f(x))), cancellationRequested)
  {
  }
}
