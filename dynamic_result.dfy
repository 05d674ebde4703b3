/**
 * DynamicResult<TFormat> (Datafixers/DynamicResult.cs): a failure-aware
 * wrapper around `DataResult<Dynamic<TFormat>>` whose members pass a failure
 * through untouched, so a chain of Get/Set calls stops at the first one.
 * `Set` on the wrapped value is the function `SetSpec`, which the method
 * `Dynamics.Set` is proved to compute.
 */
module DynamicResults {
  import opened Results
  import opened Dynamics

  datatype DynamicResult<!F> = DynamicResult(result: DataResult<Dynamic<F>>)
  {
    predicate IsError()
      ensures IsError() <==> result.Error?
    {
      result.Error?
    }

    function ErrorMessage(): (r: string)
      ensures result.Error? ==> r == result.message
      ensures result.Success? ==> r == "Success!"
    {
      result.ErrorMessage()
    }

    /** `Get`: a failure is returned as it is; otherwise the wrapped value's `Get`. */
    function Get(key: string): (r: DynamicResult<F>)
      ensures IsError() ==> r == this
      ensures !IsError() ==> r.result == Dynamics.Get(result.value, key)
    {
      if IsError() then this
      else DynamicResult(Dynamics.Get(result.GetOrThrow(), key))
    }

    /** `Set`: a failure of the receiver wins, then a failure of the value; both valid, the key is set. */
    function Set(key: string, valueResult: DynamicResult<F>): (r: DynamicResult<F>)
      ensures IsError() ==> r == this
      ensures !IsError() && valueResult.IsError() ==> r == valueResult
      ensures !IsError() && !valueResult.IsError() ==> r.result == SetSpec(result.value, key, valueResult.result.value)
    {
      if IsError() then this
      else if valueResult.IsError() then valueResult
      else DynamicResult(SetSpec(result.GetOrThrow(), key, valueResult.result.GetOrThrow()))
    }

    /** `SetOptional`: like Set, except that an invalid value is skipped rather than returned. */
    function SetOptional(key: string, valueResult: DynamicResult<F>): (r: DynamicResult<F>)
      ensures IsError() || valueResult.IsError() ==> r == this
      ensures !IsError() && !valueResult.IsError() ==> r.result == SetSpec(result.value, key, valueResult.result.value)
    {
      if IsError() || valueResult.IsError() then this
      else DynamicResult(SetSpec(result.GetOrThrow(), key, valueResult.result.GetOrThrow()))
    }

    function GetOrElse(defaultValue: Dynamic<F>): (r: Dynamic<F>)
      ensures !IsError() ==> r == result.value
      ensures IsError() ==> r == defaultValue
    {
      if !IsError() then result.GetOrThrow() else defaultValue
    }

    /** `GetOrThrow`: a failure throws, so it is outside the domain. */
    function GetOrThrow(): (r: Dynamic<F>)
      requires !IsError()
      ensures r == result.value
    {
      result.GetOrThrow()
    }

    /** `Map(mapper)`: the wrapped result's `Map`, a failure keeping its message. */
    function Map(mapper: Dynamic<F> -> Dynamic<F>): (r: DynamicResult<F>)
      ensures !IsError() ==> r == DynamicResult(Success(mapper(result.value)))
      ensures IsError() ==> r.IsError() && r.ErrorMessage() == ErrorMessage()
    {
      DynamicResult(result.Map(mapper, None))
    }
  }

  /** The implicit conversion from a plain `Dynamic`. */
  function FromDynamic<F>(data: Dynamic<F>): (r: DynamicResult<F>)
    ensures !r.IsError() && r.GetOrThrow() == data
  {
    DynamicResult(Success(data))
  }

  /** A failure goes through any chain of Get, Set and SetOptional unchanged. */
  lemma FailureSticks<F>(r: DynamicResult<F>, k1: string, k2: string, k3: string, v2: DynamicResult<F>, v3: DynamicResult<F>)
    requires r.IsError()
    ensures r.Get(k1).Set(k2, v2).SetOptional(k3, v3) == r
  {
  }

  /** Set and SetOptional differ exactly on an invalid value: Set reports it, SetOptional skips it. */
  lemma SetAndSetOptional<F>(r: DynamicResult<F>, key: string, v: DynamicResult<F>)
    ensures !v.IsError() ==> r.Set(key, v) == r.SetOptional(key, v)
    ensures !r.IsError() && v.IsError() ==> r.Set(key, v) == v && r.SetOptional(key, v) == r
  {
  }
}
