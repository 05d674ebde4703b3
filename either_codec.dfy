/**
 * EitherCodec<T>: try a first codec, fall back to a second one
 * (Codecs/EitherCodec.cs).
 */
module EitherCodecs {
  import opened Results
  import opened DynamicOps
  import opened Codecs

  /** The source throws nowhere else than inside the two codecs it calls. */
  ghost predicate EitherDecodes<T, F>(first: Codec<T, F>, second: Codec<T, F>, ops: Ops<F>, input: F)
  {
    first.decode.requires(ops, input)
    && (first.decode(ops, input).Error? ==> second.decode.requires(ops, input))
  }

  ghost predicate EitherEncodes<T, F>(first: Codec<T, F>, second: Codec<T, F>, input: T, ops: Ops<F>, prefix: F)
  {
    first.encode.requires(input, ops, prefix)
    && (first.encode(input, ops, prefix).Error? ==> second.encode.requires(input, ops, prefix))
  }

  /**
   * `Decode`: the first codec's success, else the second codec's success, else
   * a failure with only the second codec's message and no partial.
   */
  function EitherDecode<T, F>(first: Codec<T, F>, second: Codec<T, F>, ops: Ops<F>, input: F): (r: DataResult<(T, F)>)
    requires EitherDecodes(first, second, ops, input)
    ensures r.Success? <==> first.decode(ops, input).Success? || second.decode(ops, input).Success?
    ensures first.decode(ops, input).Success? ==> r == first.decode(ops, input)
    ensures first.decode(ops, input).Error? && second.decode(ops, input).Success? ==> r == second.decode(ops, input)
    ensures r.Error? ==> r == Error(second.decode(ops, input).message, None)
  {
    var firstTry := first.decode(ops, input);
    if firstTry.Success? then firstTry
    else
      var secondTry := second.decode(ops, input);
      if secondTry.Success? then secondTry else Fail(secondTry.ErrorMessage(), None)
  }

  /** `Encode`: the same rule, both codecs writing onto the same prefix. */
  function EitherEncode<T, F>(first: Codec<T, F>, second: Codec<T, F>, input: T, ops: Ops<F>, prefix: F): (r: DataResult<F>)
    requires EitherEncodes(first, second, input, ops, prefix)
    ensures r.Success? <==> first.encode(input, ops, prefix).Success? || second.encode(input, ops, prefix).Success?
    ensures first.encode(input, ops, prefix).Success? ==> r == first.encode(input, ops, prefix)
    ensures first.encode(input, ops, prefix).Error? && second.encode(input, ops, prefix).Success? ==> r == second.encode(input, ops, prefix)
    ensures r.Error? ==> r == Error(second.encode(input, ops, prefix).message, None)
  {
    var firstTry := first.encode(input, ops, prefix);
    if firstTry.Success? then firstTry
    else
      var secondTry := second.encode(input, ops, prefix);
      if secondTry.Success? then secondTry else Fail(secondTry.ErrorMessage(), None)
  }

  /** `new EitherCodec<T>(first, second)`. */
  function EitherCodec<T, F>(first: Codec<T, F>, second: Codec<T, F>): Codec<T, F>
  {
    Codec(
      (input, ops, prefix) requires EitherEncodes(first, second, input, ops, prefix) => EitherEncode(first, second, input, ops, prefix),
      (ops, input) requires EitherDecodes(first, second, ops, input) => EitherDecode(first, second, ops, input))
  }

  /** A value the first codec round-trips, the pair round-trips. */
  lemma EitherRoundTripsFirst<T, F>(first: Codec<T, F>, second: Codec<T, F>, ops: Ops<F>, x: T)
    requires RoundTrips(first, ops, x)
    ensures RoundTrips(EitherCodec(first, second), ops, x)
  {
  }

  /**
   * A value only the second codec encodes round-trips as long as the first
   * codec rejects that encoding.
   */
  lemma EitherRoundTripsSecond<T, F>(first: Codec<T, F>, second: Codec<T, F>, ops: Ops<F>, x: T)
    requires first.encode.requires(x, ops, ops.empty) && first.EncodeStart(ops, x).Error?
    requires RoundTrips(second, ops, x)
    requires first.decode.requires(ops, second.EncodeStart(ops, x).value)
    requires first.decode(ops, second.EncodeStart(ops, x).value).Error?
    ensures RoundTrips(EitherCodec(first, second), ops, x)
  {
  }

  /**
   * Decoding prefers the first codec: when it also accepts the second codec's
   * output, the decoded value is the first codec's reading of it.
   */
  lemma EitherDecodePrefersFirst<T, F>(first: Codec<T, F>, second: Codec<T, F>, ops: Ops<F>, x: T)
    requires first.encode.requires(x, ops, ops.empty) && first.EncodeStart(ops, x).Error?
    requires Encodes(second, ops, x)
    requires first.decode.requires(ops, second.EncodeStart(ops, x).value)
    requires first.decode(ops, second.EncodeStart(ops, x).value).Success?
    ensures EitherCodec(first, second).decode.requires(ops, EitherCodec(first, second).EncodeStart(ops, x).value)
    ensures EitherCodec(first, second).Parse(ops, EitherCodec(first, second).EncodeStart(ops, x).value)
         == Success(first.decode(ops, second.EncodeStart(ops, x).value).value.0)
  {
  }
}
