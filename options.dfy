/** The option type of the library: `Some<T>` (Some.cs), `None<T>` (None{T}.cs),
    the non-generic `None` marker (None.cs), the implicit lifts of Option{T}.cs and
    the `Optional` extension of Option.cs. The C# class pair is a closed sum with
    exactly two variants, so it is modelled by one datatype. */
module Options {

  /** `Option<T>`: either `Some` holding its `Content`, or `None` holding nothing. */
  datatype Option<T> = Some(content: T) | None

  /** A C# reference as seen by `ToString`: `null`, or an actual object. */
  datatype Nullable<T> = Null | NonNull(obj: T)

  /** The non-generic `None` class. It has no state, so all its instances are interchangeable and
      the model gives it one value. */
  datatype NoneMarker = NoneMarker

  /** `None.Value`: the one shared `None` instance, the same on every access. */
  function NoneValue(): NoneMarker
  {
    NoneMarker
  }

  /** Every `None` marker is interchangeable with the one `None.Value` returns. */
  lemma NoneValueIsTheOnlyMarker(m: NoneMarker)
    ensures m == NoneValue()
  {
  }

  /** `None.Of<T>()`: the `None` variant of `Option<T>`, for any `T`. */
  function NoneOf<T>(): (o: Option<T>)
    ensures !o.Some?
  {
    None
  }

  /** Implicit operator `Option<T>(None _)`: the marker lifts to the `None` variant. */
  function LiftNone<T>(marker: NoneMarker): (o: Option<T>)
    ensures !o.Some?
  {
    None
  }

  /** Implicit operator `Option<T>(T value)`: a raw value lifts to `Some`, with no null check. */
  function LiftValue<T>(value: T): (o: Option<T>)
    ensures o.Some? && o.content == value
  {
    Some(value)
  }

  /** `Optional(obj)`: wraps any object, even a null one, as `Some(obj)`; it never yields `None`. */
  function Optional<T>(obj: T): (o: Option<T>)
    ensures o != None
    ensures o.Some? && o.content == obj
  {
    Some(obj)
  }

  /** `Some<T>.ToString()` and `None<T>.ToString()`. The option holds a C# reference, so its
      content may be `null`; `show` is the content's own `ToString`, which may itself return
      `null`. `Content?.ToString() ?? "<null>"` then falls back to `"<null>"` in both cases. */
  function ToString<T>(o: Option<Nullable<T>>, show: T -> Nullable<string>): (s: string)
    ensures o == Some(Null) ==> s == "<null>"
    ensures o == None ==> s == "None"
    ensures o.Some? && o.content.NonNull? && show(o.content.obj).NonNull? ==> s == show(o.content.obj).obj
    ensures o.Some? && o.content.NonNull? && show(o.content.obj) == Null ==> s == "<null>"
  {
    match o
    case None => "None"
    case Some(content) =>
      match content
      case Null => "<null>"
      case NonNull(x) =>
        match show(x)
        case NonNull(text) => text
        case Null => "<null>"
  }

  /** Constructing `Some` never fails and its `Content` is exactly the constructor argument,
      whatever that argument is. */
  lemma SomeStoresContent<T>(content: T)
    ensures Some(content).Some? && Some(content).content == content
    ensures Some(content) != None
  {
  }

  /** `Content` is get-only: two `Some` values are the same exactly when their contents are. */
  lemma SomeDeterminedByContent<T>(a: T, b: T)
    ensures Some(a) == Some(b) <==> a == b
  {
  }

  /** `Optional` and the implicit value lift build the same option. */
  lemma OptionalIsLiftValue<T>(obj: T)
    ensures Optional(obj) == LiftValue(obj)
  {
  }

  /** All ways of obtaining a `None` agree. */
  lemma NoneOfIsLiftedMarker<T>()
    ensures NoneOf<T>() == LiftNone<T>(NoneValue())
  {
  }
}
