/**
 * The dedicated primitive codecs (Codecs/PrimitiveCodec/Primitives.cs): each
 * reads through one IDynamicOps getter and writes through one creator.
 * FloatCodec and DoubleCodec are not part of this model.
 */
module Primitives {
  import opened Results
  import opened DynamicOps
  import opened Codecs

  ghost predicate Int8Decodes<F>(ops: Ops<F>, input: F) { CastDefined(ops.getNumber(input), -0x80, 0x80) }
  ghost predicate Int16Decodes<F>(ops: Ops<F>, input: F) { CastDefined(ops.getNumber(input), -0x8000, 0x8000) }
  ghost predicate Int32Decodes<F>(ops: Ops<F>, input: F) { CastDefined(ops.getNumber(input), -0x8000_0000, 0x8000_0000) }
  ghost predicate Int64Decodes<F>(ops: Ops<F>, input: F)
  {
    CastDefined(ops.getNumber(input), -0x8000_0000_0000_0000, 0x8000_0000_0000_0000)
  }

  /** `Int32Codec.Decode`: GetInt32, the input itself as the remainder. */
  function Int32Decode<F>(ops: Ops<F>, input: F): (r: DataResult<(int32, F)>)
    requires Int32Decodes(ops, input)
    ensures r.Success? <==> ops.getNumber(input).Success?
    ensures r.Success? ==> r.value.1 == input && r.value.0 as int == Truncate(ops.getNumber(input).value)
    ensures r.Error? ==> r == Error(ops.getNumber(input).message, Some((0, input)))
  {
    GetInt32(ops, input).Map(i => (i, input), None)
  }

  function Int32Codec<F>(): Codec<int32, F>
  {
    Codec(
      (input, ops, prefix) => Success(CreateInt32(ops, input)),
      (ops, input) requires Int32Decodes(ops, input) => Int32Decode(ops, input))
  }

  /** `Int64Codec.Decode`. */
  function Int64Decode<F>(ops: Ops<F>, input: F): (r: DataResult<(int64, F)>)
    requires Int64Decodes(ops, input)
    ensures r.Success? <==> ops.getNumber(input).Success?
    ensures r.Success? ==> r.value.1 == input && r.value.0 as int == Truncate(ops.getNumber(input).value)
    ensures r.Error? ==> r == Error(ops.getNumber(input).message, Some((0, input)))
  {
    GetInt64(ops, input).Map(i => (i, input), None)
  }

  function Int64Codec<F>(): Codec<int64, F>
  {
    Codec(
      (input, ops, prefix) => Success(CreateInt64(ops, input)),
      (ops, input) requires Int64Decodes(ops, input) => Int64Decode(ops, input))
  }

  /** `Int8Codec.Decode`. */
  function Int8Decode<F>(ops: Ops<F>, input: F): (r: DataResult<(int8, F)>)
    requires Int8Decodes(ops, input)
    ensures r.Success? <==> ops.getNumber(input).Success?
    ensures r.Success? ==> r.value.1 == input && r.value.0 as int == Truncate(ops.getNumber(input).value)
    ensures r.Error? ==> r == Error(ops.getNumber(input).message, Some((0, input)))
  {
    GetInt8(ops, input).Map(i => (i, input), None)
  }

  function Int8Codec<F>(): Codec<int8, F>
  {
    Codec(
      (input, ops, prefix) => Success(CreateInt8(ops, input)),
      (ops, input) requires Int8Decodes(ops, input) => Int8Decode(ops, input))
  }

  /** `Int16Codec.Decode`. */
  function Int16Decode<F>(ops: Ops<F>, input: F): (r: DataResult<(int16, F)>)
    requires Int16Decodes(ops, input)
    ensures r.Success? <==> ops.getNumber(input).Success?
    ensures r.Success? ==> r.value.1 == input && r.value.0 as int == Truncate(ops.getNumber(input).value)
    ensures r.Error? ==> r == Error(ops.getNumber(input).message, Some((0, input)))
  {
    GetInt16(ops, input).Map(i => (i, input), None)
  }

  function Int16Codec<F>(): Codec<int16, F>
  {
    Codec(
      (input, ops, prefix) => Success(CreateInt16(ops, input)),
      (ops, input) requires Int16Decodes(ops, input) => Int16Decode(ops, input))
  }

  /**
   * `BoolCodec.Decode`. GetBool's failure keeps whatever partial the backend
   * gave it, paired with the input.
   */
  function BoolDecode<F>(ops: Ops<F>, input: F): (r: DataResult<(bool, F)>)
    ensures r.Success? <==> ops.getBool(input).Success?
    ensures r.Success? ==> r.value == (ops.getBool(input).value, input)
    ensures r.Error? ==> r.message == ops.getBool(input).message
  {
    ops.getBool(input).Map(b => (b, input), None)
  }

  function BoolCodec<F>(): Codec<bool, F>
  {
    Codec((input: bool, ops: Ops<F>, prefix: F) => Success(ops.createBool(input)), (ops, input) => BoolDecode(ops, input))
  }

  /** `StringCodec.Decode`. */
  function StringDecode<F>(ops: Ops<F>, input: F): (r: DataResult<(string, F)>)
    ensures r.Success? <==> ops.getString(input).Success?
    ensures r.Success? ==> r.value == (ops.getString(input).value, input)
    ensures r.Error? ==> r.message == ops.getString(input).message
  {
    ops.getString(input).Map(s => (s, input), None)
  }

  function StringCodec<F>(): Codec<string, F>
  {
    Codec((input: string, ops: Ops<F>, prefix: F) => Success(ops.createString(input)), (ops, input) => StringDecode(ops, input))
  }

  /** Every integer codec round-trips every value of its width on a number-preserving backend. */
  lemma IntegerCodecsRoundTrip<F>(ops: Ops<F>, a: int8, b: int16, c: int32, d: int64)
    requires NumbersRoundTrip(ops)
    ensures RoundTrips(Int8Codec(), ops, a)
    ensures RoundTrips(Int16Codec(), ops, b)
    ensures RoundTrips(Int32Codec(), ops, c)
    ensures RoundTrips(Int64Codec(), ops, d)
  {
    IntegersRoundTrip(ops, a, b, c, d);
  }

  /** The bool and string codecs round-trip on a backend that preserves them. */
  lemma BoolAndStringCodecsRoundTrip<F>(ops: Ops<F>, b: bool, s: string)
    requires BoolsRoundTrip(ops) && StringsRoundTrip(ops)
    ensures RoundTrips(BoolCodec(), ops, b)
    ensures RoundTrips(StringCodec(), ops, s)
  {
    assert ops.getBool(ops.createBool(b)) == Success(b);
    assert ops.getString(ops.createString(s)) == Success(s);
  }

  /** Encoding ignores the prefix. */
  lemma PrimitivesIgnorePrefix<F>(ops: Ops<F>, c: int32, s: string, p: F, q: F)
    ensures Int32Codec().encode(c, ops, p) == Int32Codec().encode(c, ops, q)
    ensures StringCodec().encode(s, ops, p) == StringCodec().encode(s, ops, q)
  {
  }
}
