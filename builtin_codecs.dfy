/**
 * BuiltinCodecs: the library's ready-made codecs, each a PrimitiveCodec whose
 * encoder always succeeds and whose decoder wraps the getter's value with
 * GetOrThrow (BuiltinCodecs.cs). A getter failure therefore throws: the
 * decoders are defined only where the getter succeeds. Float and Double are
 * not part of this model.
 */
module BuiltinCodecs {
  import opened Results
  import opened DynamicOps
  import opened Codecs
  import opened PrimitiveCodecs

  ghost predicate Int32Readable<F>(ops: Ops<F>, input: F)
  {
    CastDefined(ops.getNumber(input), -0x8000_0000, 0x8000_0000) && GetInt32(ops, input).Success?
  }

  ghost predicate Int64Readable<F>(ops: Ops<F>, input: F)
  {
    CastDefined(ops.getNumber(input), -0x8000_0000_0000_0000, 0x8000_0000_0000_0000) && GetInt64(ops, input).Success?
  }

  function Int32Encoder<F>(): Encoder<int32, F> { (input, ops) => Success(CreateInt32(ops, input)) }
  function Int32Decoder<F>(): Decoder<int32, F>
  {
    (ops, input) requires Int32Readable(ops, input) => Success((GetInt32(ops, input).GetOrThrow(), input))
  }
  /** `BuiltinCodecs.Int32`. */
  function Int32<F>(): (r: Codec<int32, F>)
    ensures r == PrimitiveCodec(Int32Encoder(), Int32Decoder())
  {
    PrimitiveCodec(Int32Encoder(), Int32Decoder())
  }

  function Int64Encoder<F>(): Encoder<int64, F> { (input, ops) => Success(CreateInt64(ops, input)) }
  function Int64Decoder<F>(): Decoder<int64, F>
  {
    (ops, input) requires Int64Readable(ops, input) => Success((GetInt64(ops, input).GetOrThrow(), input))
  }
  /** `BuiltinCodecs.Int64`. */
  function Int64<F>(): (r: Codec<int64, F>)
    ensures r == PrimitiveCodec(Int64Encoder(), Int64Decoder())
  {
    PrimitiveCodec(Int64Encoder(), Int64Decoder())
  }

  function StringEncoder<F>(): Encoder<string, F> { (input, ops: Ops<F>) => Success(ops.createString(input)) }
  function StringDecoder<F>(): Decoder<string, F>
  {
    (ops: Ops<F>, input) requires ops.getString(input).Success? => Success((ops.getString(input).GetOrThrow(), input))
  }
  /** `BuiltinCodecs.String`. */
  function String<F>(): (r: Codec<string, F>)
    ensures r == PrimitiveCodec(StringEncoder(), StringDecoder())
  {
    PrimitiveCodec(StringEncoder(), StringDecoder())
  }

  function BoolEncoder<F>(): Encoder<bool, F> { (input, ops: Ops<F>) => Success(ops.createBool(input)) }
  function BoolDecoder<F>(): Decoder<bool, F>
  {
    (ops: Ops<F>, input) requires ops.getBool(input).Success? => Success((ops.getBool(input).GetOrThrow(), input))
  }
  /** `BuiltinCodecs.Bool`. */
  function Bool<F>(): (r: Codec<bool, F>)
    ensures r == PrimitiveCodec(BoolEncoder(), BoolDecoder())
  {
    PrimitiveCodec(BoolEncoder(), BoolDecoder())
  }

  /**
   * Where a builtin decoder is defined it succeeds, with the getter's value and
   * the untouched input, so PrimitiveCodec's failure branch is never taken.
   */
  lemma BuiltinDecodersNeverFail<F>(ops: Ops<F>, input: F)
    ensures Int32Readable(ops, input) ==> (Int32().decode.requires(ops, input)
      && Int32().decode(ops, input) == Success((GetInt32(ops, input).value, input)))
    ensures Int64Readable(ops, input) ==> (Int64().decode.requires(ops, input)
      && Int64().decode(ops, input) == Success((GetInt64(ops, input).value, input)))
    ensures ops.getString(input).Success? ==> (String().decode.requires(ops, input)
      && String().decode(ops, input) == Success((ops.getString(input).value, input)))
    ensures ops.getBool(input).Success? ==> (Bool().decode.requires(ops, input)
      && Bool().decode(ops, input) == Success((ops.getBool(input).value, input)))
  {
  }

  /**
   * A number decoder's domain is exactly the inputs GetNumber accepts (within
   * range): a value of the wrong shape makes the source throw from GetOrThrow
   * instead of returning a failure.
   */
  lemma BuiltinDecodersThrowOnWrongShape<F>(ops: Ops<F>, input: F)
    ensures Int32Readable(ops, input) <==> ops.getNumber(input).Success? && -0x8000_0000 <= Truncate(ops.getNumber(input).value) < 0x8000_0000
    ensures Int64Readable(ops, input) <==> (ops.getNumber(input).Success?
      && -0x8000_0000_0000_0000 <= Truncate(ops.getNumber(input).value) < 0x8000_0000_0000_0000)
  {
  }

  /** Encoding always succeeds, whatever the prefix. */
  lemma BuiltinEncodersNeverFail<F>(ops: Ops<F>, a: int32, b: int64, s: string, t: bool, prefix: F)
    ensures Int32().encode.requires(a, ops, prefix) && Int32().encode(a, ops, prefix) == Success(CreateInt32(ops, a))
    ensures Int64().encode.requires(b, ops, prefix) && Int64().encode(b, ops, prefix) == Success(CreateInt64(ops, b))
    ensures String().encode.requires(s, ops, prefix) && String().encode(s, ops, prefix) == Success(ops.createString(s))
    ensures Bool().encode.requires(t, ops, prefix) && Bool().encode(t, ops, prefix) == Success(ops.createBool(t))
  {
  }

  /** On a backend that reads back what it writes, the builtins round-trip. */
  lemma BuiltinsRoundTrip<F>(ops: Ops<F>, a: int32, b: int64, s: string, t: bool)
    requires NumbersRoundTrip(ops) && StringsRoundTrip(ops) && BoolsRoundTrip(ops)
    ensures RoundTrips(Int32(), ops, a)
    ensures RoundTrips(Int64(), ops, b)
    ensures RoundTrips(String(), ops, s)
    ensures RoundTrips(Bool(), ops, t)
  {
    IntegersRoundTrip(ops, 0, 0, a, b);
    assert ops.getString(ops.createString(s)) == Success(s);
    assert ops.getBool(ops.createBool(t)) == Success(t);
  }
}
