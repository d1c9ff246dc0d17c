/** The extension methods of OptionExtensions.cs: `Map`, `Filter` and the two `Reduce`
    overloads. Each is one test of the variant. A function argument that the C# code never
    calls on a branch is, in this pure model, one the result on that branch does not depend on;
    the `...Ignores...` lemmas state that. */
module OptionExtensions {
  import opened Options

  /** `Map`: a `Some` is mapped to a new `Some`, a `None` to a `None` of the result type. */
  function Map<T, U>(obj: Option<T>, mapping: T -> U): (r: Option<U>)
    ensures r.Some? <==> obj.Some?
    ensures obj.Some? ==> r.content == mapping(obj.content)
  {
    match obj
    case Some(content) => Some(mapping(content))
    case None => None
  }

  /** `Filter`: a `Some` whose content fails the condition becomes `None`; anything else is
      returned unchanged. */
  function Filter<T>(obj: Option<T>, condition: T -> bool): (r: Option<T>)
    ensures obj.Some? && !condition(obj.content) ==> r == None
    ensures obj.Some? && condition(obj.content) ==> r == obj
    ensures obj == None ==> r == None
    ensures r.Some? ==> r == obj && condition(r.content)
  {
    if obj.Some? && !condition(obj.content) then None else obj
  }

  /** `Reduce(substitute)`: the content of a `Some`, else the substitute. */
  function Reduce<T>(obj: Option<T>, substitute: T): (r: T)
    ensures obj.Some? ==> r == obj.content
    ensures obj == None ==> r == substitute
  {
    match obj
    case Some(content) => content
    case None => substitute
  }

  /** `Reduce(Func<T> substitute)`: the content of a `Some`, else whatever the factory produces. */
  function ReduceWith<T>(obj: Option<T>, substitute: () -> T): (r: T)
    ensures obj.Some? ==> r == obj.content
    ensures obj == None ==> r == substitute()
  {
    match obj
    case Some(content) => content
    case None => substitute()
  }

  /** `Map` of `None` never looks at the mapping function. */
  lemma MapNoneIgnoresFunction<T, U>(f: T -> U, g: T -> U)
    ensures Map(None, f) == Map(None, g) == None
  {
  }

  /** Mapping with the identity returns an equal option. */
  lemma MapIdentity<T>(obj: Option<T>)
    ensures Map(obj, x => x) == obj
  {
  }

  /** Mapping twice is mapping once with the composed function. */
  lemma MapComposition<T, U, V>(obj: Option<T>, f: T -> U, g: U -> V)
    ensures Map(Map(obj, f), g) == Map(obj, x => g(f(x)))
  {
  }

  /** `Filter` of `None` never looks at the condition. */
  lemma FilterNoneIgnoresPredicate<T>(p: T -> bool, q: T -> bool)
    ensures Filter(None, p) == Filter(None, q) == None
  {
  }

  /** Filtering twice with the same condition is filtering once. */
  lemma FilterIdempotent<T>(obj: Option<T>, condition: T -> bool)
    ensures Filter(Filter(obj, condition), condition) == Filter(obj, condition)
  {
  }

  /** The lazy `Reduce` never calls its factory on a `Some`. */
  lemma ReduceWithSomeIgnoresFactory<T>(content: T, f: () -> T, g: () -> T)
    ensures ReduceWith(Some(content), f) == ReduceWith(Some(content), g) == content
  {
  }

  /** The eager and the lazy `Reduce` agree when the factory yields the substitute. */
  lemma ReduceWithAgreesWithReduce<T>(obj: Option<T>, substitute: T)
    ensures ReduceWith(obj, () => substitute) == Reduce(obj, substitute)
  {
  }

  /** `Optional(x).Reduce(s)` is `x` for every substitute `s`. */
  lemma ReduceOptional<T>(x: T, substitute: T)
    ensures Reduce(Optional(x), substitute) == x
  {
  }

  /** `Optional(x).Map(f)` is `Optional(f(x))`. */
  lemma MapOptional<T, U>(x: T, f: T -> U)
    ensures Map(Optional(x), f) == Optional(f(x))
  {
  }
}
