/** `Map`, `Bind` and `Tap` of ResultExtensions.cs. `Map` and `Bind` are written, as in the
    source, as a `Match` whose error handler rebuilds the error with the same reason. `Tap` runs a
    caller-supplied action for its side effect; that effect is modelled by a log of the values the
    action has been run with. */
module ResultExtensions {
  import opened Results

  /** `Map`: transforms the success value and passes an error through with the same reason. */
  function Map<T, E, U>(result: Result<T, E>, mapping: T -> U): (r: Result<U, E>)
    ensures r.Ok? <==> result.Ok?
    ensures result.Ok? ==> r.value == mapping(result.value)
    ensures result.Error? ==> r.reason == result.reason
  {
    Match(result, (ok: T) => Result<U, E>.Ok(mapping(ok)), (err: E) => Result<U, E>.Error(err))
  }

  /** `Bind`: the continuation's result on `Ok`, whatever variant that is; an error passes through. */
  function Bind<T, E, U>(result: Result<T, E>, bind: T -> Result<U, E>): (r: Result<U, E>)
    ensures result.Ok? ==> r == bind(result.value)
    ensures result.Error? ==> r == Error(result.reason)
  {
    Match(result, bind, (err: E) => Result<U, E>.Error(err))
  }

  /** `Map` of an error never calls the mapping function. */
  lemma MapErrorIgnoresFunction<T, E, U>(reason: E, f: T -> U, g: T -> U)
    ensures Map(Error(reason), f) == Map(Error(reason), g) == Error(reason)
  {
  }

  /** Mapping with the identity returns an equal result. */
  lemma MapIdentity<T, E>(result: Result<T, E>)
    ensures Map(result, (x: T) => x) == result
  {
  }

  /** Mapping twice is mapping once with the composed function. */
  lemma MapComposition<T, E, U, V>(result: Result<T, E>, f: T -> U, g: U -> V)
    ensures Map(Map(result, f), g) == Map(result, (x: T) => g(f(x)))
  {
  }

  /** `Bind` of an error never calls the continuation. */
  lemma BindErrorIgnoresFunction<T, E, U>(reason: E, f: T -> Result<U, E>, g: T -> Result<U, E>)
    ensures Bind(Error(reason), f) == Bind(Error(reason), g) == Error(reason)
  {
  }

  /** Left identity: binding a success value is applying the continuation to it. */
  lemma BindLeftIdentity<T, E, U>(v: T, f: T -> Result<U, E>)
    ensures Bind(Ok(v), f) == f(v)
  {
  }

  /** Right identity: binding with `Ok` returns an equal result. */
  lemma BindRightIdentity<T, E>(result: Result<T, E>)
    ensures Bind(result, (x: T) => Result<T, E>.Ok(x)) == result
  {
  }

  /** Associativity of `Bind`. */
  lemma BindAssociative<T, E, U, V>(result: Result<T, E>, f: T -> Result<U, E>, g: U -> Result<V, E>)
    ensures Bind(Bind(result, f), g) == Bind(result, (x: T) => Bind(f(x), g))
  {
  }

  /** `Map` is `Bind` with a continuation that always succeeds. */
  lemma MapIsBindOk<T, E, U>(result: Result<T, E>, f: T -> U)
    ensures Map(result, f) == Bind(result, (x: T) => Result<U, E>.Ok(f(x)))
  {
  }

  /** The effect of a `Tap` action: `observed` lists, in order, the values the action has been run
      with. */
  class ActionLog<T> {
    var observed: seq<T>

    constructor ()
      ensures observed == []
    {
      observed := [];
    }

    /** `Tap`: on `Ok` the action runs once with the value; on `Error` it does not run. Either way
        the original result is returned. */
    method Tap<E>(result: Result<T, E>) returns (tapped: Result<T, E>)
      modifies this
      ensures tapped == result
      ensures result.Ok? ==> observed == old(observed) + [result.value]
      ensures result.Error? ==> observed == old(observed)
    {
      if result.Ok? {
        observed := observed + [result.value];
      }
      tapped := result;
    }
  }
}
