/** The query operators of ResultLinqExtensions.cs: the three-argument `SelectMany` behind a
    `from ... from ... select` chain, the two-argument `SelectMany` and `Select`. */
module ResultLinqExtensions {
  import opened Results
  import ResultExtensions

  /** Three-argument `SelectMany`: the first error met is propagated; otherwise the projection of the
      source value and the inner value. */
  function SelectMany<S, E, C, R>(source: Result<S, E>, bind: S -> Result<C, E>, project: (S, C) -> R)
    : (r: Result<R, E>)
    ensures source.Error? ==> r == Error(source.reason)
    ensures source.Ok? && bind(source.value).Error? ==> r == Error(bind(source.value).reason)
    ensures source.Ok? && bind(source.value).Ok? ==> r == Ok(project(source.value, bind(source.value).value))
  {
    Match(source,
          (ok: S) => Match(bind(ok),
                           (inner: C) => Result<R, E>.Ok(project(ok, inner)),
                           (err: E) => Result<R, E>.Error(err)),
          (err: E) => Result<R, E>.Error(err))
  }

  /** Two-argument `SelectMany(binder)`, which delegates to `Bind`. */
  function SelectManyFlat<T, E, U>(result: Result<T, E>, binder: T -> Result<U, E>): (r: Result<U, E>)
    ensures result.Ok? ==> r == binder(result.value)
    ensures result.Error? ==> r == Error(result.reason)
  {
    ResultExtensions.Bind(result, binder)
  }

  /** `Select(selector)`, which delegates to `Map`. */
  function Select<T, E, U>(result: Result<T, E>, selector: T -> U): (r: Result<U, E>)
    ensures result.Ok? ==> r == Ok(selector(result.value))
    ensures result.Error? ==> r == Error(result.reason)
  {
    ResultExtensions.Map(result, selector)
  }

  /** An error source short-circuits: neither `bind` nor `project` is looked at. */
  lemma SelectManyErrorIgnoresContinuations<S, E, C, R>(reason: E, b: S -> Result<C, E>, b': S -> Result<C, E>,
                                                         p: (S, C) -> R, p': (S, C) -> R)
    ensures SelectMany(Error(reason), b, p) == SelectMany(Error(reason), b', p') == Error(reason)
  {
  }

  /** When `bind` fails, the projection is not looked at. */
  lemma SelectManyInnerErrorIgnoresProjection<S, E, C, R>(s: S, b: S -> Result<C, E>, p: (S, C) -> R, p': (S, C) -> R)
    requires b(s).Error?
    ensures SelectMany(Ok(s), b, p) == SelectMany(Ok(s), b, p') == Error(b(s).reason)
  {
  }

  /** The three-argument `SelectMany` is a `Bind` followed by a `Map` of the inner result. */
  lemma SelectManyIsBindThenMap<S, E, C, R>(source: Result<S, E>, b: S -> Result<C, E>, p: (S, C) -> R)
    ensures SelectMany(source, b, p)
         == ResultExtensions.Bind(source, (s: S) => ResultExtensions.Map(b(s), (c: C) => p(s, c)))
  {
  }

  /** The two-argument `SelectMany` is `Bind`. */
  lemma SelectManyFlatIsBind<T, E, U>(result: Result<T, E>, binder: T -> Result<U, E>)
    ensures SelectManyFlat(result, binder) == ResultExtensions.Bind(result, binder)
  {
  }

  /** `Select` is `Map`. */
  lemma SelectIsMap<T, E, U>(result: Result<T, E>, selector: T -> U)
    ensures Select(result, selector) == ResultExtensions.Map(result, selector)
  {
  }

  /** Projecting just the inner value makes the three-argument form the two-argument one. */
  lemma SelectManyProjectingInner<S, E, C>(source: Result<S, E>, b: S -> Result<C, E>)
    ensures SelectMany(source, b, (s: S, c: C) => c) == SelectManyFlat(source, b)
  {
  }
}
