/** The asynchronous three-argument `SelectMany` of ResultAsyncLinqExtensions.cs. It checks the
    token, awaits the source and, on `Ok`, hands the task returned by `bind` to `MapAsync` with the
    same token, which checks it a second time. The token may have been cancelled between the two
    checks, so the model takes what each check observes. */
module ResultAsyncLinqExtensions {
  import opened Results
  import ResultLinqExtensions
  import opened ResultAsyncExtensions

  /** `SelectMany(source, bind, project, token)`. */
  function SelectMany<S, E, C, R>(source: Awaited<Result<S, E>>, bind: S -> Awaited<Result<C, E>>,
                                  project: (S, C) -> R,
                                  cancelledAtEntry: bool, cancelledAtInnerCheck: bool)
    : (r: Awaited<Result<R, E>>)
    ensures cancelledAtEntry ==> r.Cancelled?
    ensures source.Cancelled? ==> r.Cancelled?
    ensures !cancelledAtEntry && source.Done? && source.value.Error? ==> r == Done(Error(source.value.reason))
    ensures !cancelledAtEntry && source.Done? && source.value.Ok?
            ==> r == MapAsync(bind(source.value.value), (c: C) => project(source.value.value, c), cancelledAtInnerCheck)
  {
    if cancelledAtEntry then Cancelled
    else Await(source, (result: Result<S, E>) =>
                         if result.Ok?
                         then MapAsync(bind(result.value), (inner: C) => project(result.value, inner), cancelledAtInnerCheck)
                         else Done(Result<R, E>.Error(result.reason)))
  }

  /** Cancelled at entry: the outcome is cancellation whatever the source is. */
  lemma CancelledAtEntryIgnoresSource<S, E, C, R>(source: Awaited<Result<S, E>>, source': Awaited<Result<S, E>>,
                                                   b: S -> Awaited<Result<C, E>>, p: (S, C) -> R, inner: bool)
    ensures SelectMany(source, b, p, true, inner) == SelectMany(source', b, p, true, inner) == Cancelled
  {
  }

  /** An error source yields the same error, and `bind` is not looked at. */
  lemma ErrorSourceIgnoresBind<S, E, C, R>(reason: E, b: S -> Awaited<Result<C, E>>, b': S -> Awaited<Result<C, E>>,
                                           p: (S, C) -> R, inner: bool)
    ensures SelectMany(Done(Error(reason)), b, p, false, inner)
         == SelectMany(Done(Error(reason)), b', p, false, inner)
         == Done(Error(reason))
  {
  }

  /** The inner step: `Ok(s)` with `bind(s)` completing as `Ok(c)` projects both, and as `Error(e)`
      propagates `e` without the projection; cancellation at the second check wins over both. */
  lemma InnerStep<S, E, C, R>(s: S, b: S -> Awaited<Result<C, E>>, p: (S, C) -> R, p': (S, C) -> R, inner: bool)
    ensures inner ==> SelectMany(Done(Ok(s)), b, p, false, inner) == Cancelled
    ensures !inner && b(s).Done? && b(s).value.Ok?
            ==> SelectMany(Done(Ok(s)), b, p, false, inner) == Done(Ok(p(s, b(s).value.value)))
    ensures !inner && b(s).Done? && b(s).value.Error?
            ==> SelectMany(Done(Ok(s)), b, p, false, inner) == SelectMany(Done(Ok(s)), b, p', false, inner)
                                                          == Done(Error(b(s).value.reason))
  {
  }

  /** Never cancelled, with tasks that complete at once, the outcome is the synchronous
      three-argument `SelectMany`. */
  lemma AgreesWithSynchronousSelectMany<S, E, C, R>(source: Result<S, E>, b: S -> Result<C, E>, p: (S, C) -> R)
    ensures SelectMany(Done(source), (s: S) => Done(b(s)), p, false, false)
         == Done(ResultLinqExtensions.SelectMany(source, b, p))
  {
  }
}
