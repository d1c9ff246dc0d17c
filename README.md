# AStar.Dev.Functional.Extensions in Dafny

This project models the core of the `AStar.Dev.Functional.Extensions` C# library. The library is
a small algebraic-data-type toolkit:

- `Option<T>`, made of the `Some<T>`/`None<T>` classes. Around it sit the `None` marker, the
  `Optional` lift, the combinators `Map`, `Filter` and `Reduce`, and the sequence operator
  `FirstOrNone`.
- A tagged `Result<T, TError>`, with `Ok(Value)`, `Error(Reason)` and `Match`. On it sit `Map`,
  `Bind`, `Tap` and the LINQ query operators `Select`/`SelectMany`. Four `ValueTask` operations
  take a cancellation token: `MapAsync`, `BindAsync`, `MatchAsync` and the three-argument
  `SelectMany`.
- `Try.Run`/`Try.RunAsync`, which turn a throwing computation into a `Result`.
- The variant tests of `Pattern`.
- A second, flag-based `readonly struct Result<TError, TSuccess>` (Result.cs). Its error type
  comes first.

The library's own operations have no side effects, except running the caller's action in
`Tap`. The model takes every caller-supplied delegate (mapping, predicate, continuation,
handler, factory, projection) to be a total function that returns normally, and every receiver
to be a non-null value of one of the declared variants; "## Left out" lists what that does not
cover. Each operation is a Dafny function, and the laws the library relies on are lemmas:

- case laws for each variant;
- identity, composition and associativity;
- short-circuiting;
- agreement of the async forms with the synchronous ones.

One module per C# source file or type, each in its own file:

| module | file | models |
|---|---|---|
| `Options` | options.dfy | Some.cs, None.cs, None{T}.cs, Option.cs, Option{T}.cs |
| `OptionExtensions` | option_extensions.dfy | OptionExtensions.cs |
| `EnumerableExtensions` | enumerable_extensions.dfy | EnumerableExtensions.cs |
| `Results` | results.dfy | the tagged `Result<T, TError>` and its `Match` |
| `ResultExtensions` | result_extensions.dfy | ResultExtensions.cs |
| `ResultLinqExtensions` | result_linq_extensions.dfy | ResultLinqExtensions.cs |
| `ResultAsyncExtensions` | result_async_extensions.dfy | ResultAsyncExtensions.cs |
| `ResultAsyncLinqExtensions` | result_async_linq_extensions.dfy | ResultAsyncLinqExtensions.cs |
| `Try` | try.dfy | Try.cs, and the `Try<T>` type that Pattern.cs tests |
| `Pattern` | pattern.dfy | Pattern.cs |
| `ResultStruct` | result_struct.dfy | Result.cs |

Modelling choices:

- **Option.** One closed datatype, `Option<T> = Some(content) | None`, stands for both the
  `Some<T>`/`None<T>` classes and the nested `Option<T>.Some`/`.None` types that Pattern.cs
  tests. The C# variants are immutable, so a value type suffices.
- **Null contents.** `Some`, `Optional` and the implicit lift store a null content without a
  check (Some.cs:10, Option.cs:18, Option{T}.cs:21-24). `FirstOrNone` likewise lifts a null
  element that satisfies the predicate to `Some(null)`. With a generic `T`, the model covers
  these as it covers any other value. The output of `ToString` is the one place that tells a null
  content apart from other contents, so there the option holds a `Nullable<T>`
  (`Null | NonNull(obj)`). The payload's own `ToString`, which may itself return `null`, is the
  parameter `show`.
- **Short-circuiting.** The C# code never calls a continuation on the other variant. In a pure
  model that means the result on that variant does not depend on the continuation. The
  `...Ignores...` lemmas state exactly that: two arbitrary continuations give the same result.
- **Tap.** Its action is modelled as appending to the `observed` log of an `ActionLog` object, so
  `Tap` is a method that changes that log.
- **Async.** A `ValueTask` is modelled by what awaiting it yields: `Awaited<R> = Cancelled |
  Done(value)`. `Cancelled` stands for the `OperationCanceledException` of
  `ThrowIfCancellationRequested` or of awaiting a cancelled task. The cancellation token is a
  boolean: whether cancellation is requested when the token is checked. The async `SelectMany` checks the same
  token twice: once itself, then again inside `MapAsync`. The token can be cancelled in between,
  so that function takes one boolean per check.
- **Try.** A computation is modelled by its effect. `Computation<T> = Returned(v) | Threw(ex)`
  for `Run`. `AsyncComputation<T>` for `RunAsync` has four cases: a throw before a task is
  returned, completion, a fault, or cancellation.
- **The flag struct.** `ResultStruct<E, S>(value: Slot<S>, error: Slot<E>, isSuccess)`. A
  `Slot` is `Default` or `Assigned(v)`. The five public ways of getting a value are an `Origin`
  datatype.

Facts about the code that the model keeps:

- `Some` and `Optional` accept a null content without any check (Some.cs:10, Option.cs:18).
- `FirstOrNone` is built from `Where`/`Select`/`DefaultIfEmpty`/`First` rather than a loop. Its
  source is a Dafny `seq`, a value, so it cannot be modified by the call.
- The async `SelectMany` checks its token twice: its own check (ResultAsyncLinqExtensions.cs:28)
  plus the one in `MapAsync` (ResultAsyncExtensions.cs:25).
- The flag-based struct of Result.cs is modelled alongside the tagged `Result`.

Pattern.cs refers to nested types `Option<T>.Some` and `Option<T>.None`, which Option{T}.cs does
not declare; Option{T}.cs has the separate classes `Some<T>` and `None<T>`. Both shapes map to
the one datatype.

## Model

| member | source | states |
|---|---|---|
| `Options.NoneValueIsTheOnlyMarker` | src/AStar.Dev.Functional.Extensions/None.cs:11 | the property of `None.Value` (`Options.NoneValue`): the marker is stateless, so every `None` marker is interchangeable with the one shared instance that every access returns; the model's marker type has one value by definition |
| `Options.NoneOf` | src/AStar.Dev.Functional.Extensions/None.cs:18-21 | `None.Of<T>()` is the variant without content, for any `T` |
| `Options.NoneOfIsLiftedMarker` | src/AStar.Dev.Functional.Extensions/None.cs:18-21 | `None.Of<T>()` is the same option as the implicitly lifted `None.Value` |
| `Options.LiftNone` | src/AStar.Dev.Functional.Extensions/EnumerableExtensions.cs:17 | the implicit lift of the `None` marker, used by `DefaultIfEmpty(None.Value)`, is the `None` variant |
| `Options.LiftValue` | src/AStar.Dev.Functional.Extensions/EnumerableExtensions.cs:16 | the implicit lift of a raw value, used by `Select<T, Option<T>>(x => x)`, is `Some` holding that value, with no check |
| `Options.Optional` | src/AStar.Dev.Functional.Extensions/Option.cs:16-19 | `Optional(obj)` is never `None`; it is `Some` whose content is `obj` |
| `Options.OptionalIsLiftValue` | src/AStar.Dev.Functional.Extensions/Option.cs:16-19 | `Optional` agrees with the implicit lift of Option{T}.cs |
| `Options.SomeStoresContent` | src/AStar.Dev.Functional.Extensions/Some.cs:10-15 | constructing `Some` never fails, the option is not `None`, and `Content` is exactly the constructor argument; this unfolds the datatype's definition |
| `Options.SomeDeterminedByContent` | src/AStar.Dev.Functional.Extensions/Some.cs:15 | two model `Some` values are equal exactly when their contents are equal, since the get-only `Content` is the whole state; this unfolds the datatype's definition, and C# compares `Some<T>` instances by reference |
| `Options.ToString` | src/AStar.Dev.Functional.Extensions/Some.cs:24-27 | `Some(null)` renders as `"<null>"`; `Some(x)` renders as `x`'s own rendering, or `"<null>"` when that is null; `None` renders as `"None"` (None{T}.cs:13-16) |
| `OptionExtensions.Map` | src/AStar.Dev.Functional.Extensions/OptionExtensions.cs:16-19 | the variant is preserved, and a `Some(c)` becomes `Some(map(c))` |
| `OptionExtensions.MapNoneIgnoresFunction` | src/AStar.Dev.Functional.Extensions/OptionExtensions.cs:18 | `Map` of `None` is `None` whatever the mapping function |
| `OptionExtensions.MapIdentity` | src/AStar.Dev.Functional.Extensions/OptionExtensions.cs:18 | mapping with the identity returns an equal option |
| `OptionExtensions.MapComposition` | src/AStar.Dev.Functional.Extensions/OptionExtensions.cs:18 | `Map(Map(o, f), g) == Map(o, g ∘ f)` |
| `OptionExtensions.MapOptional` | src/AStar.Dev.Functional.Extensions/OptionExtensions.cs:18 | `Optional(x).Map(f) == Optional(f(x))` |
| `OptionExtensions.Filter` | src/AStar.Dev.Functional.Extensions/OptionExtensions.cs:27-30 | a `Some` failing the predicate becomes `None`; a `Some` passing it and `None` come back unchanged; a `Some` result is the input and satisfies the predicate |
| `OptionExtensions.FilterNoneIgnoresPredicate` | src/AStar.Dev.Functional.Extensions/OptionExtensions.cs:29 | `Filter` of `None` is `None` whatever the predicate |
| `OptionExtensions.FilterIdempotent` | src/AStar.Dev.Functional.Extensions/OptionExtensions.cs:29 | `Filter(Filter(o, p), p) == Filter(o, p)` |
| `OptionExtensions.Reduce` | src/AStar.Dev.Functional.Extensions/OptionExtensions.cs:38-41 | the content for `Some`, the substitute for `None` |
| `OptionExtensions.ReduceOptional` | src/AStar.Dev.Functional.Extensions/OptionExtensions.cs:40 | `Optional(x).Reduce(s) == x` for every substitute `s` |
| `OptionExtensions.ReduceWith` | src/AStar.Dev.Functional.Extensions/OptionExtensions.cs:49-52 | the content for `Some`, `factory()` for `None` |
| `OptionExtensions.ReduceWithSomeIgnoresFactory` | src/AStar.Dev.Functional.Extensions/OptionExtensions.cs:51 | on `Some` the result is the content whatever the factory |
| `OptionExtensions.ReduceWithAgreesWithReduce` | src/AStar.Dev.Functional.Extensions/OptionExtensions.cs:38-52 | the lazy overload with a factory returning `s` equals the eager one with `s` |
| `EnumerableExtensions.Where` | src/AStar.Dev.Functional.Extensions/EnumerableExtensions.cs:15 | `Where` keeps only elements of the source, each satisfying the predicate, and is no longer than the source |
| `EnumerableExtensions.Select` | src/AStar.Dev.Functional.Extensions/EnumerableExtensions.cs:16 | `Select` keeps the length and maps the element at each index through the selector, here the implicit lift to `Option<T>` |
| `EnumerableExtensions.DefaultIfEmpty` | src/AStar.Dev.Functional.Extensions/EnumerableExtensions.cs:17 | the result is never empty: the sequence itself when it is non-empty, otherwise the one-element sequence of the default, here `None.Value` lifted |
| `EnumerableExtensions.First` | src/AStar.Dev.Functional.Extensions/EnumerableExtensions.cs:18 | `First()` gives the element at index 0; its precondition that the sequence be non-empty stands for `First()` never throwing at its only call site, where `DefaultIfEmpty` has made the sequence non-empty |
| `EnumerableExtensions.WhereStartsAtFirstMatch` | src/AStar.Dev.Functional.Extensions/EnumerableExtensions.cs:15 | the first element `Where` keeps is the element at the least index satisfying the predicate |
| `EnumerableExtensions.WhereEmpty` | src/AStar.Dev.Functional.Extensions/EnumerableExtensions.cs:15 | `Where` keeps nothing exactly when no element satisfies the predicate |
| `EnumerableExtensions.FirstOrNoneFindsFirstMatch` | src/AStar.Dev.Functional.Extensions/EnumerableExtensions.cs:13-19 | if `s[i]` satisfies the predicate and no earlier element does, the result is `Some(s[i])` |
| `EnumerableExtensions.WhereHeadIsFirstMatch` | src/AStar.Dev.Functional.Extensions/EnumerableExtensions.cs:15 | when `Where` keeps something, its first element is `s[i]` for an `i` that satisfies the predicate with no earlier element satisfying it |
| `EnumerableExtensions.FirstOrNone` | src/AStar.Dev.Functional.Extensions/EnumerableExtensions.cs:13-19 | the result is `None` if and only if no element satisfies the predicate (so an empty sequence gives `None`); a `Some(x)` result is `s[i]` for an `i` that satisfies the predicate with no earlier element satisfying it |
| `Results.Match` | src/AStar.Dev.Functional.Extensions/ResultExtensions.cs:21-24 | `Match` calls `onOk` with the value of an `Ok` and `onError` with the reason of an `Error` |
| `Results.MatchWithConstructors` | src/AStar.Dev.Functional.Extensions/ResultExtensions.cs:21-24 | matching with the two constructors rebuilds the result |
| `Results.MatchUsesOneHandler` | src/AStar.Dev.Functional.Extensions/ResultLinqExtensions.cs:22-28 | the handler of the variant not present does not affect the outcome |
| `ResultExtensions.Map` | src/AStar.Dev.Functional.Extensions/ResultExtensions.cs:17-25 | the variant is preserved, `Ok(v)` becomes `Ok(map(v))`, and an error keeps its reason |
| `ResultExtensions.MapErrorIgnoresFunction` | src/AStar.Dev.Functional.Extensions/ResultExtensions.cs:23 | `Map` of `Error(e)` is `Error(e)` whatever the mapping function |
| `ResultExtensions.MapIdentity` | src/AStar.Dev.Functional.Extensions/ResultExtensions.cs:21-24 | `Map(r, id) == r` |
| `ResultExtensions.MapComposition` | src/AStar.Dev.Functional.Extensions/ResultExtensions.cs:21-24 | `Map(Map(r, f), g) == Map(r, g ∘ f)` |
| `ResultExtensions.Bind` | src/AStar.Dev.Functional.Extensions/ResultExtensions.cs:35-43 | `Bind` of `Ok(v)` is exactly `bind(v)`, error included; `Bind` of `Error(e)` is `Error(e)` |
| `ResultExtensions.BindErrorIgnoresFunction` | src/AStar.Dev.Functional.Extensions/ResultExtensions.cs:41 | `Bind` of `Error(e)` is `Error(e)` whatever the continuation |
| `ResultExtensions.BindLeftIdentity` | src/AStar.Dev.Functional.Extensions/ResultExtensions.cs:39-40 | `Bind(Ok(v), f) == f(v)` |
| `ResultExtensions.BindRightIdentity` | src/AStar.Dev.Functional.Extensions/ResultExtensions.cs:39-42 | `Bind(r, Ok) == r` |
| `ResultExtensions.BindAssociative` | src/AStar.Dev.Functional.Extensions/ResultExtensions.cs:39-42 | `Bind(Bind(r, f), g) == Bind(r, x => Bind(f(x), g))` |
| `ResultExtensions.MapIsBindOk` | src/AStar.Dev.Functional.Extensions/ResultExtensions.cs:17-43 | `Map(r, f) == Bind(r, x => Ok(f(x)))` |
| `ResultExtensions.ActionLog.Tap` | src/AStar.Dev.Functional.Extensions/ResultExtensions.cs:52-60 | returns the original result for both variants; the action runs exactly once with the value on `Ok` and not at all on `Error` |
| `ResultLinqExtensions.SelectMany` | src/AStar.Dev.Functional.Extensions/ResultLinqExtensions.cs:19-29 | an `Error` source gives its error; an `Ok(s)` with `bind(s) = Error(e)` gives `Error(e)`; with `bind(s) = Ok(c)` it gives `Ok(project(s, c))` |
| `ResultLinqExtensions.SelectManyErrorIgnoresContinuations` | src/AStar.Dev.Functional.Extensions/ResultLinqExtensions.cs:27 | on an `Error` source neither `bind` nor `project` affects the result |
| `ResultLinqExtensions.SelectManyInnerErrorIgnoresProjection` | src/AStar.Dev.Functional.Extensions/ResultLinqExtensions.cs:23-25 | when `bind(s)` fails, `project` does not affect the result |
| `ResultLinqExtensions.SelectManyIsBindThenMap` | src/AStar.Dev.Functional.Extensions/ResultLinqExtensions.cs:22-28 | `SelectMany(src, b, p) == Bind(src, s => Map(b(s), c => p(s, c)))` |
| `ResultLinqExtensions.SelectManyFlat` | src/AStar.Dev.Functional.Extensions/ResultLinqExtensions.cs:39-42 | the two-argument `SelectMany` gives `binder(v)` on `Ok(v)` and passes an error through |
| `ResultLinqExtensions.SelectManyFlatIsBind` | src/AStar.Dev.Functional.Extensions/ResultLinqExtensions.cs:41 | the two-argument `SelectMany` equals `Bind`; it unfolds the definition, because the C# method only delegates to `Bind` |
| `ResultLinqExtensions.SelectManyProjectingInner` | src/AStar.Dev.Functional.Extensions/ResultLinqExtensions.cs:19-42 | the three-argument form projecting the inner value equals the two-argument form |
| `ResultLinqExtensions.Select` | src/AStar.Dev.Functional.Extensions/ResultLinqExtensions.cs:52-55 | `Select` gives `Ok(selector(v))` on `Ok(v)` and passes an error through |
| `ResultLinqExtensions.SelectIsMap` | src/AStar.Dev.Functional.Extensions/ResultLinqExtensions.cs:54 | `Select` equals `Map`; it unfolds the definition, because the C# method only delegates to `Map` |
| `ResultAsyncExtensions.Await` | src/AStar.Dev.Functional.Extensions/ResultAsyncExtensions.cs:26 | awaiting a cancelled task cancels the chain; a completed one passes its value on |
| `ResultAsyncExtensions.MapAsync` | src/AStar.Dev.Functional.Extensions/ResultAsyncExtensions.cs:20-29 | cancellation requested gives cancellation; otherwise the outcome is `Map` of the awaited result |
| `ResultAsyncExtensions.BindAsync` | src/AStar.Dev.Functional.Extensions/ResultAsyncExtensions.cs:40-51 | cancellation requested gives cancellation; an awaited `Ok(v)` gives the awaited outcome of `bind(v)`; an awaited `Error(r)` gives `Error(r)` |
| `ResultAsyncExtensions.MatchAsync` | src/AStar.Dev.Functional.Extensions/ResultAsyncExtensions.cs:63-73 | cancellation requested gives cancellation; otherwise the outcome is `Match(onSuccess, onError)` of the awaited result |
| `ResultAsyncExtensions.CancelledBeforeAwait` | src/AStar.Dev.Functional.Extensions/ResultAsyncExtensions.cs:20-73 | with cancellation requested, all three operations give cancellation, whatever the carrier and continuations |
| `ResultAsyncExtensions.BindAsyncErrorIgnoresFunction` | src/AStar.Dev.Functional.Extensions/ResultAsyncExtensions.cs:50 | on an awaited `Error(r)` the outcome is `Error(r)` whatever `bind` is |
| `ResultAsyncExtensions.BindAsyncAgreesWithBind` | src/AStar.Dev.Functional.Extensions/ResultAsyncExtensions.cs:48-50 | with a `bind` that completes at once, `BindAsync` yields the synchronous `Bind` |
| `ResultAsyncExtensions.MapAsyncIsBindAsync` | src/AStar.Dev.Functional.Extensions/ResultAsyncExtensions.cs:20-51 | `MapAsync` equals `BindAsync` with a continuation succeeding at once |
| `ResultAsyncLinqExtensions.SelectMany` | src/AStar.Dev.Functional.Extensions/ResultAsyncLinqExtensions.cs:22-36 | cancelled at entry or a cancelled source gives cancellation; an awaited `Error(r)` gives `Error(r)`; an awaited `Ok(s)` gives `MapAsync` of `bind(s)` with the projection, under the second token check |
| `ResultAsyncLinqExtensions.CancelledAtEntryIgnoresSource` | src/AStar.Dev.Functional.Extensions/ResultAsyncLinqExtensions.cs:28 | cancelled at entry, the outcome is cancellation whatever the source |
| `ResultAsyncLinqExtensions.ErrorSourceIgnoresBind` | src/AStar.Dev.Functional.Extensions/ResultAsyncLinqExtensions.cs:35 | an awaited `Error(r)` gives `Error(r)` whatever `bind` is |
| `ResultAsyncLinqExtensions.InnerStep` | src/AStar.Dev.Functional.Extensions/ResultAsyncLinqExtensions.cs:31-34 | on `Ok(s)`: cancellation at the second check gives cancellation; `bind(s)` giving `Ok(c)` yields `Ok(project(s, c))`; giving `Error(e)` yields `Error(e)` whatever `project` is |
| `ResultAsyncLinqExtensions.AgreesWithSynchronousSelectMany` | src/AStar.Dev.Functional.Extensions/ResultAsyncLinqExtensions.cs:22-36 | never cancelled, with tasks completing at once, the outcome is the synchronous three-argument `SelectMany` |
| `Try.Run` | src/AStar.Dev.Functional.Extensions/Try.cs:16-26 | `Ok(v)` exactly when the computation returns `v`; otherwise `Error` carrying exactly the thrown exception |
| `Try.RunIsReversible` | src/AStar.Dev.Functional.Extensions/Try.cs:18-25 | matching `Run`'s result back gives the original computation, so nothing is lost or invented |
| `Try.RunAsync` | src/AStar.Dev.Functional.Extensions/Try.cs:33-43 | `Ok(v)` exactly when the task completes with `v`; a synchronous throw, a fault or a cancellation gives `Error` with exactly the exception the await throws: the one a cancelled task recorded, or a fresh `TaskCanceledException` when it recorded none |
| `Try.RunAsyncIsRunOfAwaited` | src/AStar.Dev.Functional.Extensions/Try.cs:33-43 | `RunAsync` is `Run` applied to the awaited outcome |
| `Pattern.IsSome` | src/AStar.Dev.Functional.Extensions/Pattern.cs:13-16 | `IsSome` holds exactly when the option is not `None` |
| `Pattern.IsNone` | src/AStar.Dev.Functional.Extensions/Pattern.cs:23-26 | `IsNone` holds exactly on `None`, and of `IsSome`/`IsNone` exactly one holds |
| `Pattern.IsOk` | src/AStar.Dev.Functional.Extensions/Pattern.cs:34-37 | `IsOk` holds exactly when the result is not an `Error` |
| `Pattern.IsError` | src/AStar.Dev.Functional.Extensions/Pattern.cs:45-48 | `IsError` holds exactly when the result is not `Ok`, and of `IsOk`/`IsError` exactly one holds |
| `Pattern.IsSuccess` | src/AStar.Dev.Functional.Extensions/Pattern.cs:55-58 | `IsSuccess` holds exactly when the `Try` is not a `Failure` |
| `Pattern.IsFailure` | src/AStar.Dev.Functional.Extensions/Pattern.cs:65-68 | `IsFailure` holds exactly when the `Try` is not a `Success`, and of `IsSuccess`/`IsFailure` exactly one holds |
| `ResultStruct.DefaultResult` | src/AStar.Dev.Functional.Extensions/Result.cs:9-42 | the zero-initialised struct has `IsSuccess` false, `IsFailure` true, and both slots at default |
| `ResultStruct.Success` | src/AStar.Dev.Functional.Extensions/Result.cs:50 | `Success(v)` has `IsSuccess` true, `Value == v` and `Error` at default |
| `ResultStruct.Failure` | src/AStar.Dev.Functional.Extensions/Result.cs:57 | `Failure(e)` has `IsSuccess` false, `Error == e` and `Value` at default |
| `ResultStruct.FromSuccess` | src/AStar.Dev.Functional.Extensions/Result.cs:65 | the implicit lift of a success value equals `Success` |
| `ResultStruct.FromError` | src/AStar.Dev.Functional.Extensions/Result.cs:72 | the implicit lift of an error value equals `Failure` |
| `ResultStruct.FailureExactlyWhenNotBuiltAsSuccess` | src/AStar.Dev.Functional.Extensions/Result.cs:37-72 | `IsFailure` holds exactly for results obtained through `Failure`, the error lift or the default, and fails exactly for those obtained through `Success` or the success lift |
| `ResultStruct.ObtainableShapes` | src/AStar.Dev.Functional.Extensions/Result.cs:27-72 | every publicly obtainable value is a success with its value slot set and its error at default, a failure with its error slot set and its value at default, or the default |
| `ResultStruct.ErrorTypeComesFirst` | src/AStar.Dev.Functional.Extensions/Result.cs:9 | with `Result<int, string>`, every string lifts to a success holding it and every int to a failure holding it and no value |

## Left out

- Reference identity and reference equality are not modelled; options and results are values
  with structural equality. `Some<T>` and `None<T>` are C# classes that do not override `Equals`.
  The equality of the tagged `Result` variants is defined in code that is not part of this model.
  So two `Some(3)` instances are different objects in C#, and the
  equalities of the lemmas (`MapIdentity`, `FilterIdempotent`, `BindAssociative`,
  `SomeDeterminedByContent`, ...) hold between model values, which in C# means "same variant, same
  contents". The model also does not tell `None.Value`, one shared instance, apart from
  `None.Of<T>()`, a fresh `None<T>` each time. It also does not capture that `Tap` returns the
  very same instance; it returns an equal value.
- Exceptions thrown by caller-supplied delegates are not modelled. In C# an exception thrown by
  the mapping of `Map`, the predicate of `Filter` or `FirstOrNone`, the factory of `Reduce`, the
  handlers of `Match`, the continuations `bind` and `project`, or `Tap`'s action propagates out
  of the operation. The model's delegates are total Dafny functions. `Try.Run` and
  `Try.RunAsync` are the exception: there the throwing computation is the modelled input.
- Null receivers and null delegates are not modelled. In C#, `Map` of a null option gives a
  `None` (null is not `Some<T>`), `Filter` of null returns null, `Reduce(null, s)` returns `s`,
  `FirstOrNone` of a null sequence throws `ArgumentNullException` from `Where`, and `Try.Run(null)`
  catches the `NullReferenceException` and returns it as an `Error`. Model options and sequences
  are never null.
- `Option<T>` is a public abstract class, so outside code may derive a third variant from it. The
  combinators treat such a value as `None` in `Map`, return it unchanged from `Filter`, and give
  the substitute in `Reduce`. The model's closed `Option` datatype has no third variant.
- How often a continuation is called is not counted. Pure functions cannot observe it. "Never
  invoked" is stated as "does not affect the result", and `Try.Run` takes the single outcome of
  its one call of `func`.
- Task scheduling, suspension and `ValueTask` semantics are concurrency plumbing. Awaiting is
  modelled by its outcome only, and a token by the boolean it reads when checked.
- `ResultAsyncExtensions.MapAsync`, `ResultAsyncExtensions.BindAsync`,
  `ResultAsyncExtensions.MatchAsync`, `ResultAsyncLinqExtensions.SelectMany`: a carrier or a
  `bind` task that faults with an exception other than cancellation is not modelled. Its
  exception would propagate to the caller.
  `Awaited` has only the cancelled and the completed outcomes.
- `ResultStruct.Success`: `Assigned(v)` stays distinguishable from `Default` even when `v` is
  `default(TSuccess)`, as with `null` or `0`. The C# struct cannot tell the two apart.
- `ResultStruct.Failure`, `ResultStruct.FromSuccess`, `ResultStruct.FromError`,
  `ResultStruct.DefaultResult`, `ResultStruct.ObtainableShapes`: the same holds for them. In C#
  `Failure(default(TError))` equals `new Result<TError, TSuccess>()` field for field, and
  `Success(null)` holds a default `Value`. The model keeps these apart: a set slot is never
  `Default`.
- `EnumerableExtensions.FirstOrNone`: lazy evaluation is not modelled, that is, that the
  predicate stops being called after the first match. The sequence is a finite `seq`.
- `Options.ToString`: the CLR's default rendering of arbitrary payloads is runtime-specific. It
  is the uninterpreted parameter `show`.
- `GetHashCode` is not modelled, nor the value equality and hash codes that the tests expect of
  the nested `Option` API, whose implementation is not part of this model.
- APIs whose implementations are not part of this model are left out. They appear only in
  tests: `Option.Some`/`Option.None` with their null check, `ToOption`, `ToResult`,
  `ToNullable`, `ToEnumerable`, `OrElse`, `OrThrow`, `Deconstruct`, `TryGetValue`,
  `MapOrDefault`/`MapOrElse`, `Values`, `Choose`, `MapFailure`, `TapError`, and the `Task`-based
  async overloads.
- The C# class defining the tagged `Result<T, TError>` and the `Try<T>` type are not part of
  this model. Their datatypes follow how ResultExtensions.cs, ResultLinqExtensions.cs, Try.cs and
  Pattern.cs use them.
- Reflection-only facts are not modelled, such as the struct being a value type.
- The sample programs are left out: console, web host, Blazor UI, theme service and browser
  scripts. They are I/O, UI and foreign calls.
