/**
 * UpcastCodec<TBase, TDer>: a codec for a base type built on a codec for one
 * derived type (Codecs/UpcastCodec.cs). The subtype relation is given by
 * `up` (the implicit conversion to the base type) and `down` (the `is TDer`
 * test), with the runtime type names used in the failure message.
 */
module UpcastCodecs {
  import opened Results
  import opened DynamicOps
  import opened Codecs

  function CannotEncode(derName: string, runtimeName: string): string
  {
    "Cannot encode polymorphically: expected object of type " + derName + ", got " + runtimeName + " instead"
  }

  /** `Decode`: the derived codec's result, its value (and partial) viewed as the base type. */
  function UpcastDecode<B, D, F>(underlying: Codec<D, F>, up: D -> B, ops: Ops<F>, input: F): (r: DataResult<(B, F)>)
    requires underlying.decode.requires(ops, input)
    ensures r.Success? <==> underlying.decode(ops, input).Success?
    ensures r.Success? ==> r.value == (up(underlying.decode(ops, input).value.0), underlying.decode(ops, input).value.1)
    ensures r.Error? ==> r.message == underlying.decode(ops, input).message
  {
    underlying.decode(ops, input).Map((result: (D, F)) => (up(result.0), result.1), None)
  }

  /**
   * `Encode`: a value of another runtime type fails with a message naming both
   * types; a derived value is encoded by the derived codec onto the same prefix.
   */
  function UpcastEncode<B, D, F>(underlying: Codec<D, F>, down: B -> Option<D>, derName: string, runtimeName: B -> string,
                                 input: B, ops: Ops<F>, prefix: F): (r: DataResult<F>)
    requires down(input).Some? ==> underlying.encode.requires(down(input).value, ops, prefix)
    ensures down(input).None? ==> r == Error(CannotEncode(derName, runtimeName(input)), None)
    ensures down(input).Some? ==> r == underlying.encode(down(input).value, ops, prefix)
  {
    match down(input)
    case None => Fail(CannotEncode(derName, runtimeName(input)), None)
    case Some(derived) => underlying.encode(derived, ops, prefix)
  }

  ghost predicate UpcastEncodes<B, D, F>(underlying: Codec<D, F>, down: B -> Option<D>, input: B, ops: Ops<F>, prefix: F)
  {
    down(input).Some? ==> underlying.encode.requires(down(input).value, ops, prefix)
  }

  function UpcastCodec<B, D, F>(underlying: Codec<D, F>, up: D -> B, down: B -> Option<D>, derName: string, runtimeName: B -> string): Codec<B, F>
  {
    Codec(
      (input, ops, prefix) requires UpcastEncodes(underlying, down, input, ops, prefix) =>
        UpcastEncode(underlying, down, derName, runtimeName, input, ops, prefix),
      (ops, input) requires underlying.decode.requires(ops, input) => UpcastDecode(underlying, up, ops, input))
  }

  /** A derived value the derived codec round-trips, the upcast codec round-trips as a base value. */
  lemma UpcastRoundTrips<B, D, F>(underlying: Codec<D, F>, up: D -> B, down: B -> Option<D>, derName: string, runtimeName: B -> string,
                                  ops: Ops<F>, d: D)
    requires down(up(d)) == Some(d)
    requires RoundTrips(underlying, ops, d)
    ensures RoundTrips(UpcastCodec(underlying, up, down, derName, runtimeName), ops, up(d))
  {
  }

  /** A base value of another runtime type is refused with a message naming both types. */
  lemma UpcastRefusesOtherTypes<B, D, F>(underlying: Codec<D, F>, up: D -> B, down: B -> Option<D>, derName: string, runtimeName: B -> string,
                                         ops: Ops<F>, x: B, prefix: F)
    requires down(x).None?
    ensures UpcastCodec(underlying, up, down, derName, runtimeName).encode.requires(x, ops, prefix)
    ensures UpcastCodec(underlying, up, down, derName, runtimeName).encode(x, ops, prefix)
      == Error(CannotEncode(derName, runtimeName(x)), None)
  {
  }
}
