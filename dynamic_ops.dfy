/**
 * IDynamicOps<TFormat>: the operations through which every codec builds and
 * reads values of a serialization format `F` (Abstractions/IDynamicOps.cs),
 * plus the integer helpers of IDynamicOpsExtensions.
 *
 * An interface is a record of functions here. It covers the operations the
 * interface declares and the ones the codecs call on it (ReadAsStream,
 * ReadAsMap, CreateList, CreateMap, Merge, MergeAndAppend, RemoveFromInput on
 * two values, and Build on a record builder). `decimal` is `real`.
 */
module DynamicOps {
  import opened Results

  /**
   * One backend. `readList`/`readMap` give the elements (pairs) the backend
   * feeds its consumer, in order, or its failure. `prefixAfterAppend` and
   * `prefixAfterMergeAndAppend` give the prefix argument as the call leaves it:
   * the node backend writes into an object prefix in place. `createMap`,
   * `merge` and `mergeAndAppend` are partial because the node backend throws
   * on a key that is not a string.
   */
  datatype Ops<!F> = Ops(
    empty: F,
    createNumeric: real -> F,
    createString: string -> F,
    createBool: bool -> F,
    getNumber: F -> DataResult<real>,
    getString: F -> DataResult<string>,
    getBool: F -> DataResult<bool>,
    getValue: (F, string) -> DataResult<F>,
    createEmptyList: F,
    addToList: (F, F) -> DataResult<F>,
    readList: F -> DataResult<seq<F>>,
    finalizeList: F -> F,
    createEmptyMap: F,
    addToMap: (F, F, F) -> DataResult<F>,
    readMap: F -> DataResult<seq<(F, F)>>,
    finalizeMap: F -> F,
    appendToPrefix: (F, F) -> F,
    prefixAfterAppend: (F, F) -> F,
    removeFromInput: (F, string) -> F,
    removeValue: (F, F) -> F,
    readAsStream: F -> DataResult<seq<F>>,
    readAsMap: F -> DataResult<seq<(F, F)>>,
    createList: seq<F> -> F,
    createMap: seq<(F, F)> --> F,
    merge: (F, F) --> F,
    mergeAndAppend: (F, F, F) --> F,
    prefixAfterMergeAndAppend: (F, F, F) --> F,
    build: (seq<(F, DataResult<F>)>, F) -> DataResult<F>)

  newtype int8 = x: int | -0x80 <= x < 0x80
  newtype int16 = x: int | -0x8000 <= x < 0x8000
  newtype int32 = x: int | -0x8000_0000 <= x < 0x8000_0000
  newtype int64 = x: int | -0x8000_0000_0000_0000 <= x < 0x8000_0000_0000_0000

  /** The integer part of a decimal, rounded toward zero as C#'s explicit cast does. */
  function Truncate(d: real): (n: int)
    ensures d >= 0.0 ==> n as real <= d < n as real + 1.0
    ensures d < 0.0 ==> n as real - 1.0 < d <= n as real
  {
    if d >= 0.0 then d.Floor else -((-d).Floor)
  }

  lemma TruncateOfInt(n: int)
    ensures Truncate(n as real) == n
  {
  }

  /**
   * The cast from decimal to an integer type of range [lo, hi) throws
   * OverflowException when the truncated value lies outside the range.
   */
  predicate CastDefined(num: DataResult<real>, lo: int, hi: int)
  {
    num.Success? ==> lo <= Truncate(num.value) < hi
  }

  /** `CreateInt8` ... `CreateInt64`: the integer written as the exact decimal it denotes. */
  function CreateInt8<F>(ops: Ops<F>, value: int8): (r: F)
    ensures r == ops.createNumeric(value as real)
  {
    ops.createNumeric(value as real)
  }
  function CreateInt16<F>(ops: Ops<F>, value: int16): (r: F)
    ensures r == ops.createNumeric(value as real)
  {
    ops.createNumeric(value as real)
  }
  function CreateInt32<F>(ops: Ops<F>, value: int32): (r: F)
    ensures r == ops.createNumeric(value as real)
  {
    ops.createNumeric(value as real)
  }
  function CreateInt64<F>(ops: Ops<F>, value: int64): (r: F)
    ensures r == ops.createNumeric(value as real)
  {
    ops.createNumeric(value as real)
  }

  /**
   * `GetInt8`: GetNumber's value cast to sbyte. A failure passes the number's
   * message on; `Fail(message)` on a value type keeps `default(sbyte)` = 0.
   */
  function GetInt8<F>(ops: Ops<F>, input: F): (r: DataResult<int8>)
    requires CastDefined(ops.getNumber(input), -0x80, 0x80)
    ensures r.Success? <==> ops.getNumber(input).Success?
    ensures r.Success? ==> r.value as int == Truncate(ops.getNumber(input).value)
    ensures r.Error? ==> r == Error(ops.getNumber(input).message, Some(0))
  {
    var num := ops.getNumber(input);
    if num.Error? then Fail(num.ErrorMessage(), Some(0)) else Success(Truncate(num.GetOrThrow()) as int8)
  }

  /** `GetInt16`: as GetInt8 for short. */
  function GetInt16<F>(ops: Ops<F>, input: F): (r: DataResult<int16>)
    requires CastDefined(ops.getNumber(input), -0x8000, 0x8000)
    ensures r.Success? <==> ops.getNumber(input).Success?
    ensures r.Success? ==> r.value as int == Truncate(ops.getNumber(input).value)
    ensures r.Error? ==> r == Error(ops.getNumber(input).message, Some(0))
  {
    var num := ops.getNumber(input);
    if num.Error? then Fail(num.ErrorMessage(), Some(0)) else Success(Truncate(num.GetOrThrow()) as int16)
  }

  /** `GetInt32`: as GetInt8 for int. */
  function GetInt32<F>(ops: Ops<F>, input: F): (r: DataResult<int32>)
    requires CastDefined(ops.getNumber(input), -0x8000_0000, 0x8000_0000)
    ensures r.Success? <==> ops.getNumber(input).Success?
    ensures r.Success? ==> r.value as int == Truncate(ops.getNumber(input).value)
    ensures r.Error? ==> r == Error(ops.getNumber(input).message, Some(0))
  {
    var num := ops.getNumber(input);
    if num.Error? then Fail(num.ErrorMessage(), Some(0)) else Success(Truncate(num.GetOrThrow()) as int32)
  }

  /** `GetInt64`: as GetInt8 for long. */
  function GetInt64<F>(ops: Ops<F>, input: F): (r: DataResult<int64>)
    requires CastDefined(ops.getNumber(input), -0x8000_0000_0000_0000, 0x8000_0000_0000_0000)
    ensures r.Success? <==> ops.getNumber(input).Success?
    ensures r.Success? ==> r.value as int == Truncate(ops.getNumber(input).value)
    ensures r.Error? ==> r == Error(ops.getNumber(input).message, Some(0))
  {
    var num := ops.getNumber(input);
    if num.Error? then Fail(num.ErrorMessage(), Some(0)) else Success(Truncate(num.GetOrThrow()) as int64)
  }

  /** A backend whose GetNumber reads back what CreateNumeric wrote. */
  ghost predicate NumbersRoundTrip<F>(ops: Ops<F>)
  {
    forall d: real {:trigger ops.createNumeric(d)} :: ops.getNumber(ops.createNumeric(d)) == Success(d)
  }

  /** A backend whose GetString reads back what CreateString wrote. */
  ghost predicate StringsRoundTrip<F>(ops: Ops<F>)
  {
    forall s: string {:trigger ops.createString(s)} :: ops.getString(ops.createString(s)) == Success(s)
  }

  /** A backend whose GetBool reads back what CreateBool wrote. */
  ghost predicate BoolsRoundTrip<F>(ops: Ops<F>)
  {
    forall b: bool {:trigger ops.createBool(b)} :: ops.getBool(ops.createBool(b)) == Success(b)
  }

  /** On such a backend every width reads back the integer it wrote. */
  lemma IntegersRoundTrip<F>(ops: Ops<F>, a: int8, b: int16, c: int32, d: int64)
    requires NumbersRoundTrip(ops)
    ensures CastDefined(ops.getNumber(CreateInt8(ops, a)), -0x80, 0x80)
    ensures GetInt8(ops, CreateInt8(ops, a)) == Success(a)
    ensures CastDefined(ops.getNumber(CreateInt16(ops, b)), -0x8000, 0x8000)
    ensures GetInt16(ops, CreateInt16(ops, b)) == Success(b)
    ensures CastDefined(ops.getNumber(CreateInt32(ops, c)), -0x8000_0000, 0x8000_0000)
    ensures GetInt32(ops, CreateInt32(ops, c)) == Success(c)
    ensures CastDefined(ops.getNumber(CreateInt64(ops, d)), -0x8000_0000_0000_0000, 0x8000_0000_0000_0000)
    ensures GetInt64(ops, CreateInt64(ops, d)) == Success(d)
  {
    assert ops.getNumber(ops.createNumeric(a as real)) == Success(a as real);
    assert ops.getNumber(ops.createNumeric(b as real)) == Success(b as real);
    assert ops.getNumber(ops.createNumeric(c as real)) == Success(c as real);
    assert ops.getNumber(ops.createNumeric(d as real)) == Success(d as real);
    TruncateOfInt(a as int);
    TruncateOfInt(b as int);
    TruncateOfInt(c as int);
    TruncateOfInt(d as int);
  }
}
