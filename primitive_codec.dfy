/**
 * PrimitiveCodec<T>: a codec built from an encoder and a decoder function
 * that wraps their failures in its own messages (Codecs/PrimitiveCodec.cs).
 * The source's boxing through `object` is the identity here.
 */
module PrimitiveCodecs {
  import opened Results
  import opened DynamicOps
  import opened Codecs

  /** The encoder ignores the prefix it is given. */
  type Encoder<!T, !F> = (T, Ops<F>) --> DataResult<F>
  type Decoder<!T, !F> = (Ops<F>, F) --> DataResult<(T, F)>

  /**
   * `Decode`: the decoder's success as it is; its failure becomes
   * "Failed to decode primitive value: <message>" without a partial.
   */
  function PrimitiveDecode<T, F>(decoder: Decoder<T, F>, ops: Ops<F>, input: F): (r: DataResult<(T, F)>)
    requires decoder.requires(ops, input)
    ensures r.Success? <==> decoder(ops, input).Success?
    ensures r.Success? ==> r == decoder(ops, input)
    ensures r.Error? ==> r == Error("Failed to decode primitive value: " + decoder(ops, input).message, None)
  {
    var decoded := decoder(ops, input);
    if decoded.Error? then Fail("Failed to decode primitive value: " + decoded.ErrorMessage(), None)
    else decoded.Map((result: (T, F)) => (result.0, result.1), None)
  }

  /**
   * `Encode`: the encoder's success as it is, whatever the prefix; its failure
   * becomes "Failed to encode primitive value: <message>".
   */
  function PrimitiveEncode<T, F>(encoder: Encoder<T, F>, input: T, ops: Ops<F>, prefix: F): (r: DataResult<F>)
    requires encoder.requires(input, ops)
    ensures r.Success? <==> encoder(input, ops).Success?
    ensures r.Success? ==> r == encoder(input, ops)
    ensures r.Error? ==> r == Error("Failed to encode primitive value: " + encoder(input, ops).message, None)
  {
    var encoded := encoder(input, ops);
    if encoded.Error? then Fail("Failed to encode primitive value: " + encoded.ErrorMessage(), None)
    else encoded.Map((obj: F) => obj, None)
  }

  /** `new PrimitiveCodec<T>(encoder, decoder)`. */
  function PrimitiveCodec<T, F>(encoder: Encoder<T, F>, decoder: Decoder<T, F>): Codec<T, F>
  {
    Codec(
      (input, ops, prefix) requires encoder.requires(input, ops) => PrimitiveEncode(encoder, input, ops, prefix),
      (ops, input) requires decoder.requires(ops, input) => PrimitiveDecode(decoder, ops, input))
  }

  /** The prefix never reaches the output. */
  lemma PrimitiveEncodeIgnoresPrefix<T, F>(encoder: Encoder<T, F>, decoder: Decoder<T, F>, input: T, ops: Ops<F>, p: F, q: F)
    requires encoder.requires(input, ops)
    ensures PrimitiveCodec(encoder, decoder).encode.requires(input, ops, p)
    ensures PrimitiveCodec(encoder, decoder).encode(input, ops, p) == PrimitiveCodec(encoder, decoder).encode(input, ops, q)
  {
  }
}
