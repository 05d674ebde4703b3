/**
 * RecordCodec1, RecordCodec2 and RecordCodec3 (Codecs/RecordCodec/RecordCodec.cs):
 * a record as a map of its fields. Decode runs the fields in declaration
 * order, each on the remainder the previous one left, and builds the record
 * with the factory; Encode threads one accumulator, started from an empty
 * map, through the fields and appends it to the prefix.
 */
module RecordCodecs {
  import opened Results
  import opened DynamicOps
  import opened Codecs
  import opened FieldCodecs

  // ---------------------------------------------------------------- one field

  ghost predicate Record1Decodes<T, A, F>(f0: FieldCodec<T, A, F>, ops: Ops<F>, input: F)
  {
    FieldDecodes(f0, ops, input)
  }

  /** `RecordCodec1.Decode`: the field's failure, or `(factory(value), the field's remainder)`. */
  function Record1Decode<T, A, F>(f0: FieldCodec<T, A, F>, factory: A -> T, ops: Ops<F>, input: F): (r: DataResult<(T, F)>)
    requires Record1Decodes(f0, ops, input)
    ensures var d0 := FieldDecode(f0, ops, input);
      (d0.Error? ==> r == Error(d0.message, None))
      && (d0.Success? ==> r == Success((factory(d0.value.0), d0.value.1)))
  {
    var dec0 := FieldDecode(f0, ops, input);
    if dec0.Error? then Fail(dec0.ErrorMessage(), None)
    else Success((factory(dec0.GetOrThrow().0), dec0.GetOrThrow().1))
  }

  ghost predicate Record1Encodes<T, A, F>(f0: FieldCodec<T, A, F>, x: T, ops: Ops<F>)
  {
    FieldEncodes(f0, x, ops, ops.createEmptyMap)
  }

  /** `RecordCodec1.Encode`: the field's failure, or the field written into an empty map, appended to the prefix. */
  function Record1Encode<T, A, F>(f0: FieldCodec<T, A, F>, x: T, ops: Ops<F>, prefix: F): (r: DataResult<F>)
    requires Record1Encodes(f0, x, ops)
    ensures var e0 := FieldEncode(f0, x, ops, ops.createEmptyMap);
      (e0.Error? ==> r == e0)
      && (e0.Success? ==> r == Success(ops.appendToPrefix(prefix, e0.value)))
  {
    var enc0 := FieldEncode(f0, x, ops, ops.createEmptyMap);
    if enc0.Error? then enc0
    else Success(ops.appendToPrefix(prefix, enc0.GetOrThrow()))
  }

  /** `WithCtor` on a one-field builder: the record codec itself. */
  function RecordCodec1<T, A, F>(f0: FieldCodec<T, A, F>, factory: A -> T): Codec<T, F>
  {
    Codec(
      (x, ops, prefix) requires Record1Encodes(f0, x, ops) => Record1Encode(f0, x, ops, prefix),
      (ops, input) requires Record1Decodes(f0, ops, input) => Record1Decode(f0, factory, ops, input))
  }

  /**
   * A record round-trips when its field's codec does, the factory rebuilds it
   * from the field, and the backend stores the field under its key.
   */
  lemma Record1RoundTrips<T, A, F>(f0: FieldCodec<T, A, F>, factory: A -> T, ops: Ops<F>, x: T)
    requires RoundTrips(f0.codec, ops, f0.getter(x))
    requires factory(f0.getter(x)) == x
    requires Record1Encodes(f0, x, ops)
    requires StoresUnder(ops, Record1Encode(f0, x, ops, ops.empty).value, f0.name, f0.codec.EncodeStart(ops, f0.getter(x)).value)
    ensures RoundTrips(RecordCodec1(f0, factory), ops, x)
  {
    var out := Record1Encode(f0, x, ops, ops.empty).value;
    FieldReadsBack(f0, ops, x, out);
  }

  // --------------------------------------------------------------- two fields

  ghost predicate Record2Decodes<T, A, B, F>(f0: FieldCodec<T, A, F>, f1: FieldCodec<T, B, F>, ops: Ops<F>, input: F)
  {
    FieldDecodes(f0, ops, input)
    && (FieldDecode(f0, ops, input).Success? ==> FieldDecodes(f1, ops, FieldDecode(f0, ops, input).value.1))
  }

  /**
   * `RecordCodec2.Decode`: the first field decodes the input, the second the
   * first one's remainder; the first failure is returned and the factory is
   * called only when both succeed.
   */
  function Record2Decode<T, A, B, F>(f0: FieldCodec<T, A, F>, f1: FieldCodec<T, B, F>, factory: (A, B) -> T,
                                     ops: Ops<F>, input: F): (r: DataResult<(T, F)>)
    requires Record2Decodes(f0, f1, ops, input)
    ensures var d0 := FieldDecode(f0, ops, input);
      (d0.Error? ==> r == Error(d0.message, None))
      && (d0.Success? ==>
            var d1 := FieldDecode(f1, ops, d0.value.1);
            (d1.Error? ==> r == Error(d1.message, None))
            && (d1.Success? ==> r == Success((factory(d0.value.0, d1.value.0), d1.value.1))))
  {
    var dec0 := FieldDecode(f0, ops, input);
    if dec0.Error? then Fail(dec0.ErrorMessage(), None)
    else
      var dec1 := FieldDecode(f1, ops, dec0.GetOrThrow().1);
      if dec1.Error? then Fail(dec1.ErrorMessage(), None)
      else Success((factory(dec0.GetOrThrow().0, dec1.GetOrThrow().0), dec1.GetOrThrow().1))
  }

  ghost predicate Record2Encodes<T, A, B, F>(f0: FieldCodec<T, A, F>, f1: FieldCodec<T, B, F>, x: T, ops: Ops<F>)
  {
    FieldEncodes(f0, x, ops, ops.createEmptyMap)
    && (var e0 := FieldEncode(f0, x, ops, ops.createEmptyMap);
        e0.Success? ==> FieldEncodes(f1, x, ops, e0.value))
  }

  /**
   * `RecordCodec2.Encode`: the first field writes into an empty map, the
   * second into what the first returned; the first failure is returned and
   * later fields are not encoded.
   */
  function Record2Encode<T, A, B, F>(f0: FieldCodec<T, A, F>, f1: FieldCodec<T, B, F>, x: T, ops: Ops<F>, prefix: F): (r: DataResult<F>)
    requires Record2Encodes(f0, f1, x, ops)
    ensures var e0 := FieldEncode(f0, x, ops, ops.createEmptyMap);
      (e0.Error? ==> r == e0)
      && (e0.Success? ==>
            var e1 := FieldEncode(f1, x, ops, e0.value);
            (e1.Error? ==> r == e1)
            && (e1.Success? ==> r == Success(ops.appendToPrefix(prefix, e1.value))))
  {
    var enc0 := FieldEncode(f0, x, ops, ops.createEmptyMap);
    if enc0.Error? then enc0
    else
      var enc1 := FieldEncode(f1, x, ops, enc0.GetOrThrow());
      if enc1.Error? then enc1
      else Success(ops.appendToPrefix(prefix, enc1.GetOrThrow()))
  }

  function RecordCodec2<T, A, B, F>(f0: FieldCodec<T, A, F>, f1: FieldCodec<T, B, F>, factory: (A, B) -> T): Codec<T, F>
  {
    Codec(
      (x, ops, prefix) requires Record2Encodes(f0, f1, x, ops) => Record2Encode(f0, f1, x, ops, prefix),
      (ops, input) requires Record2Decodes(f0, f1, ops, input) => Record2Decode(f0, f1, factory, ops, input))
  }

  /**
   * Two fields round-trip when their codecs do, the factory rebuilds the
   * record, the first field is stored in the output and the second in what
   * removing the first key leaves.
   */
  lemma Record2RoundTrips<T, A, B, F>(f0: FieldCodec<T, A, F>, f1: FieldCodec<T, B, F>, factory: (A, B) -> T, ops: Ops<F>, x: T)
    requires RoundTrips(f0.codec, ops, f0.getter(x)) && RoundTrips(f1.codec, ops, f1.getter(x))
    requires factory(f0.getter(x), f1.getter(x)) == x
    requires Record2Encodes(f0, f1, x, ops)
    requires var out := Record2Encode(f0, f1, x, ops, ops.empty).value;
      StoresUnder(ops, out, f0.name, f0.codec.EncodeStart(ops, f0.getter(x)).value)
      && StoresUnder(ops, ops.removeValue(out, ops.createString(f0.name)), f1.name, f1.codec.EncodeStart(ops, f1.getter(x)).value)
    ensures RoundTrips(RecordCodec2(f0, f1, factory), ops, x)
  {
    var out := Record2Encode(f0, f1, x, ops, ops.empty).value;
    FieldReadsBack(f0, ops, x, out);
    FieldReadsBack(f1, ops, x, ops.removeValue(out, ops.createString(f0.name)));
  }

  // ------------------------------------------------------------- three fields

  ghost predicate Record3Decodes<T, A, B, C, F>(f0: FieldCodec<T, A, F>, f1: FieldCodec<T, B, F>, f2: FieldCodec<T, C, F>,
                                                ops: Ops<F>, input: F)
  {
    Record2Decodes(f0, f1, ops, input)
    && (FieldDecode(f0, ops, input).Success? && FieldDecode(f1, ops, FieldDecode(f0, ops, input).value.1).Success? ==>
          FieldDecodes(f2, ops, FieldDecode(f1, ops, FieldDecode(f0, ops, input).value.1).value.1))
  }

  /** `RecordCodec3.Decode`: the three fields in order, each on the previous remainder. */
  function Record3Decode<T, A, B, C, F>(f0: FieldCodec<T, A, F>, f1: FieldCodec<T, B, F>, f2: FieldCodec<T, C, F>,
                                        factory: (A, B, C) -> T, ops: Ops<F>, input: F): (r: DataResult<(T, F)>)
    requires Record3Decodes(f0, f1, f2, ops, input)
    ensures var d0 := FieldDecode(f0, ops, input);
      (d0.Error? ==> r == Error(d0.message, None))
      && (d0.Success? ==>
            var d1 := FieldDecode(f1, ops, d0.value.1);
            (d1.Error? ==> r == Error(d1.message, None))
            && (d1.Success? ==>
                  var d2 := FieldDecode(f2, ops, d1.value.1);
                  (d2.Error? ==> r == Error(d2.message, None))
                  && (d2.Success? ==> r == Success((factory(d0.value.0, d1.value.0, d2.value.0), d2.value.1)))))
  {
    var dec0 := FieldDecode(f0, ops, input);
    if dec0.Error? then Fail(dec0.ErrorMessage(), None)
    else
      var dec1 := FieldDecode(f1, ops, dec0.GetOrThrow().1);
      if dec1.Error? then Fail(dec1.ErrorMessage(), None)
      else
        var dec2 := FieldDecode(f2, ops, dec1.GetOrThrow().1);
        if dec2.Error? then Fail(dec2.ErrorMessage(), None)
        else Success((factory(dec0.GetOrThrow().0, dec1.GetOrThrow().0, dec2.GetOrThrow().0), dec2.GetOrThrow().1))
  }

  ghost predicate Record3Encodes<T, A, B, C, F>(f0: FieldCodec<T, A, F>, f1: FieldCodec<T, B, F>, f2: FieldCodec<T, C, F>,
                                                x: T, ops: Ops<F>)
  {
    Record2Encodes(f0, f1, x, ops)
    && (var e0 := FieldEncode(f0, x, ops, ops.createEmptyMap);
        e0.Success? && FieldEncode(f1, x, ops, e0.value).Success? ==>
          FieldEncodes(f2, x, ops, FieldEncode(f1, x, ops, e0.value).value))
  }

  /** `RecordCodec3.Encode`: the accumulator through the three fields in order, then appended to the prefix. */
  function Record3Encode<T, A, B, C, F>(f0: FieldCodec<T, A, F>, f1: FieldCodec<T, B, F>, f2: FieldCodec<T, C, F>,
                                        x: T, ops: Ops<F>, prefix: F): (r: DataResult<F>)
    requires Record3Encodes(f0, f1, f2, x, ops)
    ensures var e0 := FieldEncode(f0, x, ops, ops.createEmptyMap);
      (e0.Error? ==> r == e0)
      && (e0.Success? ==>
            var e1 := FieldEncode(f1, x, ops, e0.value);
            (e1.Error? ==> r == e1)
            && (e1.Success? ==>
                  var e2 := FieldEncode(f2, x, ops, e1.value);
                  (e2.Error? ==> r == e2)
                  && (e2.Success? ==> r == Success(ops.appendToPrefix(prefix, e2.value)))))
  {
    var enc0 := FieldEncode(f0, x, ops, ops.createEmptyMap);
    if enc0.Error? then enc0
    else
      var enc1 := FieldEncode(f1, x, ops, enc0.GetOrThrow());
      if enc1.Error? then enc1
      else
        var enc2 := FieldEncode(f2, x, ops, enc1.GetOrThrow());
        if enc2.Error? then enc2
        else Success(ops.appendToPrefix(prefix, enc2.GetOrThrow()))
  }

  function RecordCodec3<T, A, B, C, F>(f0: FieldCodec<T, A, F>, f1: FieldCodec<T, B, F>, f2: FieldCodec<T, C, F>,
                                       factory: (A, B, C) -> T): Codec<T, F>
  {
    Codec(
      (x, ops, prefix) requires Record3Encodes(f0, f1, f2, x, ops) => Record3Encode(f0, f1, f2, x, ops, prefix),
      (ops, input) requires Record3Decodes(f0, f1, f2, ops, input) => Record3Decode(f0, f1, f2, factory, ops, input))
  }

  /** Three fields round-trip under the same laws, each field found in what the earlier ones leave. */
  lemma Record3RoundTrips<T, A, B, C, F>(f0: FieldCodec<T, A, F>, f1: FieldCodec<T, B, F>, f2: FieldCodec<T, C, F>,
                                         factory: (A, B, C) -> T, ops: Ops<F>, x: T)
    requires RoundTrips(f0.codec, ops, f0.getter(x)) && RoundTrips(f1.codec, ops, f1.getter(x))
    requires RoundTrips(f2.codec, ops, f2.getter(x))
    requires factory(f0.getter(x), f1.getter(x), f2.getter(x)) == x
    requires Record3Encodes(f0, f1, f2, x, ops)
    requires var out := Record3Encode(f0, f1, f2, x, ops, ops.empty).value;
      var rest0 := ops.removeValue(out, ops.createString(f0.name));
      StoresUnder(ops, out, f0.name, f0.codec.EncodeStart(ops, f0.getter(x)).value)
      && StoresUnder(ops, rest0, f1.name, f1.codec.EncodeStart(ops, f1.getter(x)).value)
      && StoresUnder(ops, ops.removeValue(rest0, ops.createString(f1.name)), f2.name, f2.codec.EncodeStart(ops, f2.getter(x)).value)
    ensures RoundTrips(RecordCodec3(f0, f1, f2, factory), ops, x)
  {
    var out := Record3Encode(f0, f1, f2, x, ops, ops.empty).value;
    var rest0 := ops.removeValue(out, ops.createString(f0.name));
    FieldReadsBack(f0, ops, x, out);
    FieldReadsBack(f1, ops, x, rest0);
    FieldReadsBack(f2, ops, x, ops.removeValue(rest0, ops.createString(f1.name)));
  }

  /** A record whose first field is missing fails with that field's failure, whatever the other fields hold. */
  lemma Record2StopsAtFirstFailure<T, A, B, F>(f0: FieldCodec<T, A, F>, f1: FieldCodec<T, B, F>, factory: (A, B) -> T,
                                               ops: Ops<F>, input: F)
    requires FieldDecodes(f0, ops, input) && FieldDecode(f0, ops, input).Error?
    ensures Record2Decodes(f0, f1, ops, input)
    ensures Record2Decode(f0, f1, factory, ops, input) == Error(FieldDecode(f0, ops, input).message, None)
  {
  }
}
