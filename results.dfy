/**
 * DataResult<T>: the success-or-error value every operation of the library
 * returns (Abstractions/DataResult.cs).
 *
 * A C# `null` is modelled by `None`. The source decides whether a failure
 * keeps a partial result by testing the partial against `null`; when a caller
 * uses the default argument, that partial is `default(T)`, which is `null` for
 * reference types but a real value (0, false, ...) for value types. Callers in
 * this model therefore pass the C# default of the result type explicitly,
 * as an `Option`.
 */
module Results {

  datatype Option<T> = None | Some(value: T)

  /** The source's `Unit`, the value type of `DataResult<Unit>`. */
  datatype Unit = Unit

  /**
   * `Success(v)` is a SuccessResult; `Error(m, p)` is an ErrorResult with
   * message `m` and, when `p` is `Some`, a partial result (`_hasPartial`).
   */
  datatype DataResult<T> = Success(value: T) | Error(message: string, partial: Option<T>)
  {
    /** `ErrorMessage`: the literal "Success!" on success, the message otherwise. */
    function ErrorMessage(): (r: string)
      ensures Success? ==> r == "Success!"
      ensures Error? ==> r == message
    {
      if Success? then "Success!" else message
    }

    /** `GetOrThrow`: the value; an ErrorResult throws, so it is outside the domain. */
    function GetOrThrow(): (r: T)
      requires Success?
      ensures r == value
    {
      value
    }

    /** `GetOrDefault(defaultValue)`. */
    function GetOrDefault(defaultValue: T): (r: T)
      ensures Success? ==> r == value
      ensures Error? ==> r == defaultValue
    {
      if Success? then value else defaultValue
    }

    /**
     * `ResultOrPartial()`: the value, else the stored partial, else
     * `default(T)` (passed as `typeDefault`, `None` standing for `null`).
     */
    function ResultOrPartial(typeDefault: Option<T>): (r: Option<T>)
      ensures Success? ==> r == Some(value)
      ensures Error? && partial.Some? ==> r == partial
      ensures Error? && partial.None? ==> r == typeDefault
    {
      match this
      case Success(v) => Some(v)
      case Error(_, p) => if p.Some? then p else typeDefault
    }

    /**
     * `ResultOrConsume(onError)`: the value, or `default(T)` after calling
     * `onError` with the message. The second component lists the arguments
     * `onError` was called with, in order.
     */
    function ResultOrConsume(typeDefault: Option<T>): (r: (Option<T>, seq<string>))
      ensures Success? ==> r == (Some(value), [])
      ensures Error? ==> r == (typeDefault, [message])
    {
      if Success? then (Some(value), []) else (typeDefault, [message])
    }

    /**
     * `Map(converter)`: a success maps its value; a failure keeps its message
     * and maps its partial when it has one. A failure without a partial is
     * rebuilt with `Fail(message)`, whose partial is `default(TOther)`.
     */
    function Map<U>(converter: T -> U, targetDefault: Option<U>): (r: DataResult<U>)
      ensures r.Success? <==> Success?
      ensures Success? ==> r.value == converter(value)
      ensures Error? ==> r.message == message
      ensures Error? && partial.Some? ==> r.partial == Some(converter(partial.value))
      ensures Error? && partial.None? ==> r.partial == targetDefault
    {
      match this
      case Success(v) => Success(converter(v))
      case Error(m, p) =>
        if p.Some? then Fail(m, Some(converter(p.value))) else Fail(m, targetDefault)
    }

    /**
     * `UnsafeMap(converter)`: a success is replaced by the converter's own
     * result; a failure keeps only its message (a partial is dropped).
     */
    function UnsafeMap<U>(converter: T -> DataResult<U>, targetDefault: Option<U>): (r: DataResult<U>)
      ensures Success? ==> r == converter(value)
      ensures Error? ==> r == Error(message, targetDefault)
    {
      match this
      case Success(v) => converter(v)
      case Error(m, _) => Fail(m, targetDefault)
    }
  }

  /** `DataResult<T>.Success(value)`. */
  function Ok<T>(value: T): (r: DataResult<T>)
    ensures r.Success? && r.value == value
  {
    Success(value)
  }

  /**
   * `DataResult<T>.Fail(message, partialResult)`: an ErrorResult that keeps a
   * partial exactly when `partialResult` is not `null`.
   */
  function Fail<T>(message: string, partialResult: Option<T>): (r: DataResult<T>)
    ensures r.Error? && r.message == message
    ensures r.partial.Some? <==> partialResult.Some?
    ensures r.partial.Some? ==> r.partial.value == partialResult.value
  {
    if partialResult.None? then Error(message, None) else Error(message, Some(partialResult.value))
  }

  /**
   * `Evaluate(successFunc, errorFunc)` as written: both variants call
   * `errorFunc` with the receiver and return the receiver. The result lists
   * the receiver, the arguments given to `successFunc` and the arguments given
   * to `errorFunc`.
   */
  function Evaluate<T>(d: DataResult<T>): (r: (DataResult<T>, seq<T>, seq<DataResult<T>>))
    ensures r.0 == d
    ensures r.1 == []
    ensures r.2 == [d]
  {
    match d
    case Success(_) => (d, [], [d])
    case Error(_, _) => (d, [], [d])
  }

  /**
   * `Evaluate` as its documentation describes it: `successFunc` receives the
   * value of a success, `errorFunc` receives a failure.
   */
  function EvaluateIntended<T>(d: DataResult<T>): (r: (DataResult<T>, seq<T>, seq<DataResult<T>>))
    ensures r.0 == d
    ensures d.Success? ==> r.1 == [d.value] && r.2 == []
    ensures d.Error? ==> r.1 == [] && r.2 == [d]
  {
    match d
    case Success(v) => (d, [v], [])
    case Error(_, _) => (d, [], [d])
  }

  /** A success handed to `Evaluate` reaches `errorFunc`, never `successFunc`. */
  lemma EvaluateSuccessCallsErrorFunc(v: int)
    ensures Evaluate(Success(v)).1 == [] && Evaluate(Success(v)).2 == [Success(v)]
    ensures Evaluate(Success(v)) != EvaluateIntended(Success(v))
  {
  }

  /** Both definitions agree on failures. */
  lemma EvaluateAgreesOnErrors<T>(d: DataResult<T>)
    requires d.Error?
    ensures Evaluate(d) == EvaluateIntended(d)
  {
  }

  /**
   * The default-partial quirk: `Fail(message)` on a value type keeps
   * `default(T)` as a partial, so `ResultOrPartial` and `Map` see it; on a
   * reference type the default is null, no partial, and `Map` gives the
   * target's default.
   */
  lemma FailKeepsValueTypeDefault<T, U>(message: string, default: T, converter: T -> U, targetDefault: Option<U>, typeDefault: Option<T>)
    ensures Fail(message, Some(default)).partial == Some(default)
    ensures Fail(message, Some(default)).ResultOrPartial(typeDefault) == Some(default)
    ensures Fail(message, Some(default)).Map(converter, targetDefault).partial == Some(converter(default))
    ensures Fail<T>(message, None).partial == None
    ensures Fail<T>(message, None).Map(converter, targetDefault).partial == targetDefault
  {
  }

  /** Mapping with the identity changes nothing. */
  lemma MapIdentity<T>(d: DataResult<T>)
    requires d.Error? ==> d.partial.Some?
    ensures d.Map(x => x, None) == d
  {
  }

  /** Two maps in a row are one map with the composed converter. */
  lemma MapCompose<T, U, W>(d: DataResult<T>, f: T -> U, g: U -> W, du: Option<U>, dw: Option<W>)
    requires d.Error? && d.partial.None? ==> du.None? && dw.None?
    ensures d.Map(f, du).Map(g, dw) == d.Map(x => g(f(x)), dw)
  {
  }

  /** `UnsafeMap` with `Success` is `Map`, except that a failure loses its partial. */
  lemma UnsafeMapOfSuccess<T, U>(d: DataResult<T>, f: T -> U)
    ensures d.UnsafeMap(x => Success(f(x)), None) == (if d.Success? then d.Map(f, None) else Error(d.message, None))
  {
  }
}
