/**
 * Codec<T>: a pair of an encoder and a decoder for values of type `T`, both
 * generic over the format (Codecs/Codec.cs). Here both are closures taken at a
 * fixed format `F`. They are partial: a codec whose source throws (a builtin
 * decoder's GetOrThrow, a dispatch table that does not know a discriminator)
 * is not defined on those inputs.
 */
module Codecs {
  import opened Results
  import opened DynamicOps

  /**
   * `encode(input, ops, prefix)` appends the encoding of `input` to `prefix`;
   * `decode(ops, input)` yields the value and the remainder of the input.
   */
  datatype Codec<!T, !F> = Codec(
    encode: (T, Ops<F>, F) --> DataResult<F>,
    decode: (Ops<F>, F) --> DataResult<(T, F)>)
  {
    /** `EncodeStart`: encode onto the backend's empty value. */
    function EncodeStart(ops: Ops<F>, input: T): (r: DataResult<F>)
      requires encode.requires(input, ops, ops.empty)
      ensures r == encode(input, ops, ops.empty)
    {
      encode(input, ops, ops.empty)
    }

    /** `Parse`: decode and drop the remainder, keeping message and partial. */
    function Parse(ops: Ops<F>, input: F): (r: DataResult<T>)
      requires decode.requires(ops, input)
      ensures r.Success? <==> decode(ops, input).Success?
      ensures r.Success? ==> r.value == decode(ops, input).value.0
      ensures r.Error? ==> r.message == decode(ops, input).message
      ensures r.Error? ==> (r.partial.Some? <==> decode(ops, input).partial.Some?)
      ensures r.Error? && r.partial.Some? ==> r.partial.value == decode(ops, input).partial.value.0
    {
      decode(ops, input).Map((pair: (T, F)) => pair.0, None)
    }
  }

  /** Encoding `x` from the empty value succeeds. */
  ghost predicate Encodes<T, F>(c: Codec<T, F>, ops: Ops<F>, x: T)
  {
    c.encode.requires(x, ops, ops.empty) && c.EncodeStart(ops, x).Success?
  }

  /**
   * The round-trip law: encoding `x` from the empty value succeeds, and
   * decoding the output succeeds with `x`.
   */
  ghost predicate RoundTrips<T, F>(c: Codec<T, F>, ops: Ops<F>, x: T)
  {
    Encodes(c, ops, x)
    && c.decode.requires(ops, c.EncodeStart(ops, x).value)
    && c.decode(ops, c.EncodeStart(ops, x).value).Success?
    && c.decode(ops, c.EncodeStart(ops, x).value).value.0 == x
  }

  /** A codec that round-trips `x` parses its own encoding of `x` back to `x`. */
  lemma RoundTripParses<T, F>(c: Codec<T, F>, ops: Ops<F>, x: T)
    requires RoundTrips(c, ops, x)
    ensures c.decode.requires(ops, c.EncodeStart(ops, x).value)
    ensures c.Parse(ops, c.EncodeStart(ops, x).value) == Success(x)
  {
  }
}
