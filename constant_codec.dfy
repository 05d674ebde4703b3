/**
 * ConstantCodec<T>: decodes every input to a fixed value and encodes every
 * value as the backend's empty value (Codecs/ConstantCodec.cs).
 */
module ConstantCodecs {
  import opened Results
  import opened DynamicOps
  import opened Codecs

  /** `Decode`: the constant, the input untouched. */
  function ConstantDecode<T, F>(value: T, ops: Ops<F>, input: F): (r: DataResult<(T, F)>)
    ensures r.Success? && r.value.0 == value && r.value.1 == input
  {
    Success((value, input))
  }

  /** `Encode`: the empty value, whatever the input and the prefix. */
  function ConstantEncode<T, F>(input: T, ops: Ops<F>, prefix: F): (r: DataResult<F>)
    ensures r.Success? && r.value == ops.empty
  {
    Success(ops.empty)
  }

  function ConstantCodec<T, F>(value: T): Codec<T, F>
  {
    Codec(
      (input, ops, prefix) => ConstantEncode(input, ops, prefix),
      (ops, input) => ConstantDecode(value, ops, input))
  }

  /** Whatever is encoded, parsing the output gives the constant back. */
  lemma ConstantParsesToItsValue<T, F>(value: T, ops: Ops<F>, x: T)
    ensures ConstantCodec(value).EncodeStart(ops, x) == Success(ops.empty)
    ensures ConstantCodec(value).Parse(ops, ops.empty) == Success(value)
  {
  }

  /** So it round-trips exactly its own value. */
  lemma ConstantRoundTripsOnlyItsValue<T, F>(value: T, ops: Ops<F>, x: T)
    ensures RoundTrips(ConstantCodec(value), ops, x) <==> x == value
  {
  }
}
