/**
 * The four mapped codecs (Codecs/MappedCodecs.cs): a codec for `B` built on a
 * codec for `A` and two conversions, `to: A -> B` used when decoding and
 * `from: B -> A` used when encoding, either of which may be fallible.
 */
module MappedCodecs {
  import opened Results
  import opened DynamicOps
  import opened Codecs

  /** `SafeMapCodec.Encode`: encode `from(input)` with the underlying codec. */
  function SafeMapEncode<A, B, F>(underlying: Codec<A, F>, from: B -> A, input: B, ops: Ops<F>, prefix: F): (r: DataResult<F>)
    requires underlying.encode.requires(from(input), ops, prefix)
    ensures r == underlying.encode(from(input), ops, prefix)
  {
    underlying.encode(from(input), ops, prefix)
  }

  /** `SafeMapCodec.Decode`: convert the decoded value (and a partial) with `to`. */
  function SafeMapDecode<A, B, F>(underlying: Codec<A, F>, to: A -> B, ops: Ops<F>, input: F): (r: DataResult<(B, F)>)
    requires underlying.decode.requires(ops, input)
    ensures r.Success? <==> underlying.decode(ops, input).Success?
    ensures r.Success? ==> r.value == (to(underlying.decode(ops, input).value.0), underlying.decode(ops, input).value.1)
    ensures r.Error? ==> r.message == underlying.decode(ops, input).message
  {
    underlying.decode(ops, input).Map((pair: (A, F)) => (to(pair.0), pair.1), None)
  }

  function SafeMapCodec<A, B, F>(underlying: Codec<A, F>, to: A -> B, from: B -> A): Codec<B, F>
  {
    Codec(
      (input, ops, prefix) requires underlying.encode.requires(from(input), ops, prefix) => SafeMapEncode(underlying, from, input, ops, prefix),
      (ops, input) requires underlying.decode.requires(ops, input) => SafeMapDecode(underlying, to, ops, input))
  }

  /**
   * `UnsafeMapCodec.Encode` (and `Safe2UnsafeMapCodec.Encode`): a failing
   * `from` gives its message and the underlying codec is never called.
   */
  function FallibleEncode<A, B, F>(underlying: Codec<A, F>, from: B -> DataResult<A>, input: B, ops: Ops<F>, prefix: F): (r: DataResult<F>)
    requires from(input).Success? ==> underlying.encode.requires(from(input).value, ops, prefix)
    ensures from(input).Error? ==> r == Error(from(input).message, None)
    ensures from(input).Success? ==> r == underlying.encode(from(input).value, ops, prefix)
  {
    var transformed := from(input);
    if transformed.Error? then Fail(transformed.ErrorMessage(), None)
    else underlying.encode(transformed.GetOrThrow(), ops, prefix)
  }

  /**
   * `UnsafeMapCodec.Decode` (and `Unsafe2SafeMapCodec.Decode`): an underlying
   * failure keeps only its message; a success is passed through `to`, whose
   * failure (with its message) is the result.
   */
  function FallibleDecode<A, B, F>(underlying: Codec<A, F>, to: A -> DataResult<B>, ops: Ops<F>, input: F): (r: DataResult<(B, F)>)
    requires underlying.decode.requires(ops, input)
    ensures underlying.decode(ops, input).Error? ==> r == Error(underlying.decode(ops, input).message, None)
    ensures underlying.decode(ops, input).Success? ==>
      var (a, rest) := underlying.decode(ops, input).value;
      (r.Success? <==> to(a).Success?)
      && (r.Success? ==> r.value == (to(a).value, rest))
      && (r.Error? ==> r.message == to(a).message)
  {
    underlying.decode(ops, input).UnsafeMap(
      (pair: (A, F)) => to(pair.0).Map((mapped: B) => (mapped, pair.1), None), None)
  }

  ghost predicate FallibleEncodes<A, B, F>(underlying: Codec<A, F>, from: B -> DataResult<A>, input: B, ops: Ops<F>, prefix: F)
  {
    from(input).Success? ==> underlying.encode.requires(from(input).value, ops, prefix)
  }

  function UnsafeMapCodec<A, B, F>(underlying: Codec<A, F>, to: A -> DataResult<B>, from: B -> DataResult<A>): Codec<B, F>
  {
    Codec(
      (input, ops, prefix) requires FallibleEncodes(underlying, from, input, ops, prefix) => FallibleEncode(underlying, from, input, ops, prefix),
      (ops, input) requires underlying.decode.requires(ops, input) => FallibleDecode(underlying, to, ops, input))
  }

  function Safe2UnsafeMapCodec<A, B, F>(underlying: Codec<A, F>, to: A -> B, from: B -> DataResult<A>): Codec<B, F>
  {
    Codec(
      (input, ops, prefix) requires FallibleEncodes(underlying, from, input, ops, prefix) => FallibleEncode(underlying, from, input, ops, prefix),
      (ops, input) requires underlying.decode.requires(ops, input) => SafeMapDecode(underlying, to, ops, input))
  }

  function Unsafe2SafeMapCodec<A, B, F>(underlying: Codec<A, F>, to: A -> DataResult<B>, from: B -> A): Codec<B, F>
  {
    Codec(
      (input, ops, prefix) requires underlying.encode.requires(from(input), ops, prefix) => SafeMapEncode(underlying, from, input, ops, prefix),
      (ops, input) requires underlying.decode.requires(ops, input) => FallibleDecode(underlying, to, ops, input))
  }

  /** A safe mapping round-trips when `to` undoes `from` on the underlying value. */
  lemma SafeMapRoundTrips<A, B, F>(underlying: Codec<A, F>, to: A -> B, from: B -> A, ops: Ops<F>, x: B)
    requires RoundTrips(underlying, ops, from(x)) && to(from(x)) == x
    ensures RoundTrips(SafeMapCodec(underlying, to, from), ops, x)
  {
  }

  /** A fully fallible mapping round-trips when both conversions succeed and agree. */
  lemma UnsafeMapRoundTrips<A, B, F>(underlying: Codec<A, F>, to: A -> DataResult<B>, from: B -> DataResult<A>, ops: Ops<F>, x: B)
    requires from(x).Success? && RoundTrips(underlying, ops, from(x).value) && to(from(x).value) == Success(x)
    ensures RoundTrips(UnsafeMapCodec(underlying, to, from), ops, x)
  {
  }

  lemma Safe2UnsafeMapRoundTrips<A, B, F>(underlying: Codec<A, F>, to: A -> B, from: B -> DataResult<A>, ops: Ops<F>, x: B)
    requires from(x).Success? && RoundTrips(underlying, ops, from(x).value) && to(from(x).value) == x
    ensures RoundTrips(Safe2UnsafeMapCodec(underlying, to, from), ops, x)
  {
  }

  lemma Unsafe2SafeMapRoundTrips<A, B, F>(underlying: Codec<A, F>, to: A -> DataResult<B>, from: B -> A, ops: Ops<F>, x: B)
    requires RoundTrips(underlying, ops, from(x)) && to(from(x)) == Success(x)
    ensures RoundTrips(Unsafe2SafeMapCodec(underlying, to, from), ops, x)
  {
  }

  /**
   * A value `from` rejects is never encoded: the failure carries `from`'s
   * message, whatever the underlying codec would have done.
   */
  lemma FallibleEncodeRejects<A, B, F>(underlying: Codec<A, F>, to: A -> DataResult<B>, from: B -> DataResult<A>, ops: Ops<F>, x: B, prefix: F)
    requires from(x).Error?
    ensures UnsafeMapCodec(underlying, to, from).encode.requires(x, ops, prefix)
    ensures UnsafeMapCodec(underlying, to, from).encode(x, ops, prefix) == Error(from(x).message, None)
  {
  }
}
