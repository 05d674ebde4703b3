/**
 * DispatchCodec<TBase, TDis>: a polymorphic codec that stores a discriminator
 * under a key of the encoded map and picks the codec for the variant from it
 * (Codecs/DispatchCodec.cs). `codecGetter` is partial: a discriminator it does
 * not know makes the source throw.
 */
module DispatchCodecs {
  import opened Results
  import opened DynamicOps
  import opened Codecs

  datatype Dispatcher<!B, !D, !F> = Dispatcher(
    discriminatorGetter: B -> D,
    discriminatorCodec: Codec<D, F>,
    codecGetter: D --> Codec<B, F>,
    keyName: string)

  function MissingDiscriminator(keyName: string, message: string): string
  {
    "Input was missing polymorphic type discriminator named " + keyName + " - [" + message + "]"
  }

  function BadDiscriminator(message: string): string
  {
    "Failed to decode type discriminator: [" + message + "]"
  }

  /** The entry `{keyName: field}` whose keys Decode removes from the input. */
  function DiscriminatorEntry<B, D, F>(d: Dispatcher<B, D, F>, ops: Ops<F>, field: F): F
    requires ops.merge.requires(ops.createString(d.keyName), field)
  {
    ops.merge(ops.createString(d.keyName), field)
  }

  /** Everything Decode calls is defined: the source throws nowhere else. */
  ghost predicate DispatchDecodes<B, D, F>(d: Dispatcher<B, D, F>, ops: Ops<F>, input: F)
  {
    var field := ops.getValue(input, d.keyName);
    field.Success? ==>
      d.discriminatorCodec.decode.requires(ops, field.value)
      && (var discr := d.discriminatorCodec.decode(ops, field.value);
          discr.Success? ==>
            d.codecGetter.requires(discr.value.0)
            && ops.merge.requires(ops.createString(d.keyName), field.value)
            && d.codecGetter(discr.value.0).decode.requires(ops, ops.removeValue(input, DiscriminatorEntry(d, ops, field.value))))
  }

  /**
   * `Decode`: a missing key and an unreadable discriminator are failures naming
   * the cause; otherwise the key is removed from the input (the node backend
   * does so in place) and the variant's codec decodes what is left.
   */
  function DispatchDecode<B, D, F>(d: Dispatcher<B, D, F>, ops: Ops<F>, input: F): (r: DataResult<(B, F)>)
    requires DispatchDecodes(d, ops, input)
    ensures ops.getValue(input, d.keyName).Error? ==>
      r == Error(MissingDiscriminator(d.keyName, ops.getValue(input, d.keyName).message), None)
    ensures ops.getValue(input, d.keyName).Success? ==>
      var field := ops.getValue(input, d.keyName).value;
      var discr := d.discriminatorCodec.Parse(ops, field);
      (discr.Error? ==> r == Error(BadDiscriminator(discr.message), None))
      && (discr.Success? ==> r == d.codecGetter(discr.value).decode(ops, ops.removeValue(input, DiscriminatorEntry(d, ops, field))))
  {
    var discrField := ops.getValue(input, d.keyName);
    if discrField.Error? then Fail(MissingDiscriminator(d.keyName, discrField.ErrorMessage()), None)
    else
      var decodedDiscr := d.discriminatorCodec.Parse(ops, discrField.GetOrThrow());
      if decodedDiscr.Error? then Fail(BadDiscriminator(decodedDiscr.ErrorMessage()), None)
      else
        var codec := d.codecGetter(decodedDiscr.GetOrThrow());
        var rest := ops.removeValue(input, DiscriminatorEntry(d, ops, discrField.GetOrThrow()));
        codec.decode(ops, rest)
  }

  ghost predicate DispatchEncodes<B, D, F>(d: Dispatcher<B, D, F>, input: B, ops: Ops<F>, prefix: F)
  {
    var discr := d.discriminatorGetter(input);
    d.discriminatorCodec.encode.requires(discr, ops, ops.empty)
    && (var discrResult := d.discriminatorCodec.EncodeStart(ops, discr);
        discrResult.Success? ==>
          ops.mergeAndAppend.requires(prefix, ops.createString(d.keyName), discrResult.value)
          && d.codecGetter.requires(discr)
          && d.codecGetter(discr).encode.requires(input, ops, ops.mergeAndAppend(prefix, ops.createString(d.keyName), discrResult.value)))
  }

  /**
   * `Encode`: the discriminator's own failure is returned; otherwise
   * `{keyName: discriminator}` is merged into the prefix and the variant's
   * codec encodes the value onto that.
   */
  function DispatchEncode<B, D, F>(d: Dispatcher<B, D, F>, input: B, ops: Ops<F>, prefix: F): (r: DataResult<F>)
    requires DispatchEncodes(d, input, ops, prefix)
    ensures
      var discr := d.discriminatorGetter(input);
      var discrResult := d.discriminatorCodec.EncodeStart(ops, discr);
      (discrResult.Error? ==> r == discrResult)
      && (discrResult.Success? ==>
            r == d.codecGetter(discr).encode(input, ops, ops.mergeAndAppend(prefix, ops.createString(d.keyName), discrResult.value)))
  {
    var discr := d.discriminatorGetter(input);
    var discrResult := d.discriminatorCodec.EncodeStart(ops, discr);
    if discrResult.Error? then discrResult
    else
      var discriminated := ops.mergeAndAppend(prefix, ops.createString(d.keyName), discrResult.GetOrThrow());
      d.codecGetter(discr).encode(input, ops, discriminated)
  }

  function DispatchCodec<B, D, F>(d: Dispatcher<B, D, F>): Codec<B, F>
  {
    Codec(
      (input, ops, prefix) requires DispatchEncodes(d, input, ops, prefix) => DispatchEncode(d, input, ops, prefix),
      (ops, input) requires DispatchDecodes(d, ops, input) => DispatchDecode(d, ops, input))
  }

  /**
   * What the backend and the variant's codec must do for `x` to come back:
   * the variant codec writes onto the prefix holding the discriminator by
   * appending its own encoding `body`, the discriminator is found again under
   * its key, and removing the key gives back `body`.
   */
  ghost predicate VariantLaws<B, D, F>(d: Dispatcher<B, D, F>, ops: Ops<F>, x: B)
  {
    var discr := d.discriminatorGetter(x);
    RoundTrips(d.discriminatorCodec, ops, discr)
    && d.codecGetter.requires(discr)
    && RoundTrips(d.codecGetter(discr), ops, x)
    && (var tag := d.discriminatorCodec.EncodeStart(ops, discr).value;
        var body := d.codecGetter(discr).EncodeStart(ops, x).value;
        var tagged := ops.mergeAndAppend.requires(ops.empty, ops.createString(d.keyName), tag);
        tagged
        && ops.merge.requires(ops.createString(d.keyName), tag)
        && (var prefix := ops.mergeAndAppend(ops.empty, ops.createString(d.keyName), tag);
            d.codecGetter(discr).encode.requires(x, ops, prefix)
            && d.codecGetter(discr).encode(x, ops, prefix) == Success(ops.appendToPrefix(prefix, body))
            && ops.getValue(ops.appendToPrefix(prefix, body), d.keyName) == Success(tag)
            && ops.removeValue(ops.appendToPrefix(prefix, body), ops.merge(ops.createString(d.keyName), tag)) == body))
  }

  /** Under those laws a dispatched value round-trips and keeps its variant. */
  lemma DispatchRoundTrips<B, D, F>(d: Dispatcher<B, D, F>, ops: Ops<F>, x: B)
    requires VariantLaws(d, ops, x)
    ensures RoundTrips(DispatchCodec(d), ops, x)
  {
    var discr := d.discriminatorGetter(x);
    var tag := d.discriminatorCodec.EncodeStart(ops, discr).value;
    var body := d.codecGetter(discr).EncodeStart(ops, x).value;
    var prefix := ops.mergeAndAppend(ops.empty, ops.createString(d.keyName), tag);
    var out := ops.appendToPrefix(prefix, body);
    assert DispatchEncodes(d, x, ops, ops.empty);
    assert DispatchCodec(d).EncodeStart(ops, x) == Success(out);
    RoundTripParses(d.discriminatorCodec, ops, discr);
    assert DispatchDecodes(d, ops, out);
  }
}
