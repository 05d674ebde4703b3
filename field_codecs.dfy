/**
 * Field codecs (Codecs/RecordCodec/FieldCodecs.cs): one named entry of a
 * record, read from and written into a map. `Required` is FieldCodec,
 * `Optional` is OptionalFieldCodec with its default value; both carry the
 * field's codec, its key and the getter that takes the field out of a record.
 */
module FieldCodecs {
  import opened Results
  import opened DynamicOps
  import opened Codecs

  datatype FieldCodec<!T, !V, !F> =
    | Required(codec: Codec<V, F>, name: string, getter: T -> V)
    | Optional(codec: Codec<V, F>, name: string, getter: T -> V, defaultValue: V)

  /** The `Field` extension: a required field named `name`. */
  function Field<T, V, F>(codec: Codec<V, F>, getter: T -> V, name: string): (f: FieldCodec<T, V, F>)
    ensures f.Required? && f.codec == codec && f.getter == getter && f.name == name
  {
    Required(codec, name, getter)
  }

  /** The `OptionalField` extension: a field that decodes to `defaultValue` when its key is absent. */
  function OptionalField<T, V, F>(codec: Codec<V, F>, getter: T -> V, name: string, defaultValue: V): (f: FieldCodec<T, V, F>)
    ensures f.Optional? && f.codec == codec && f.getter == getter && f.name == name && f.defaultValue == defaultValue
  {
    Optional(codec, name, getter, defaultValue)
  }

  ghost predicate FieldDecodes<T, V, F>(f: FieldCodec<T, V, F>, ops: Ops<F>, input: F)
  {
    var fieldResult := ops.getValue(input, f.name);
    fieldResult.Success? ==> f.codec.decode.requires(ops, fieldResult.value)
  }

  /**
   * `Decode`: a missing key fails with the lookup's message for a required
   * field and gives `(default, input)` for an optional one; a malformed value
   * fails with the field codec's message in both; otherwise the value is
   * returned with `RemoveFromInput(input, CreateString(name))`.
   */
  function FieldDecode<T, V, F>(f: FieldCodec<T, V, F>, ops: Ops<F>, input: F): (r: DataResult<(V, F)>)
    requires FieldDecodes(f, ops, input)
    ensures ops.getValue(input, f.name).Error? && f.Required? ==>
      r == Error(ops.getValue(input, f.name).message, None)
    ensures ops.getValue(input, f.name).Error? && f.Optional? ==>
      r == Success((f.defaultValue, input))
    ensures ops.getValue(input, f.name).Success? ==>
      var parsed := f.codec.Parse(ops, ops.getValue(input, f.name).value);
      (parsed.Error? ==> r == Error(parsed.message, None))
      && (parsed.Success? ==> r == Success((parsed.value, ops.removeValue(input, ops.createString(f.name)))))
  {
    var fieldResult := ops.getValue(input, f.name);
    if fieldResult.Error? then
      if f.Optional? then Success((f.defaultValue, input)) else Fail(fieldResult.ErrorMessage(), None)
    else
      var parsed := f.codec.Parse(ops, fieldResult.GetOrThrow());
      if parsed.Error? then Fail(parsed.ErrorMessage(), None)
      else parsed.Map((decoded: V) => (decoded, ops.removeValue(input, ops.createString(f.name))), None)
  }

  /**
   * Everything Encode calls is defined. A required field maps the encoding
   * (value or partial) through `MergeAndAppend`; an optional field calls it
   * on a successful encoding only.
   */
  ghost predicate FieldEncodes<T, V, F>(f: FieldCodec<T, V, F>, x: T, ops: Ops<F>, prefix: F)
  {
    var key := ops.createString(f.name);
    f.codec.encode.requires(f.getter(x), ops, ops.empty)
    && (var encoded := f.codec.EncodeStart(ops, f.getter(x));
        (encoded.Success? ==>
           ops.mergeAndAppend.requires(prefix, key, encoded.value)
           && ops.prefixAfterMergeAndAppend.requires(prefix, key, encoded.value))
        && (f.Required? && encoded.Error? && encoded.partial.Some? ==>
              ops.mergeAndAppend.requires(prefix, key, encoded.partial.value)))
  }

  /**
   * `Encode` as written. A required field returns
   * `MergeAndAppend(prefix, CreateString(name), encoded)` (an error keeps its
   * message, its partial mapped the same way). An optional field returns the
   * encoding's own failure, and otherwise `Success(prefix)` after a
   * `MergeAndAppend` whose result is dropped: what it returns is the prefix as
   * that call leaves it, whatever the value and the default are.
   */
  function FieldEncode<T, V, F>(f: FieldCodec<T, V, F>, x: T, ops: Ops<F>, prefix: F): (r: DataResult<F>)
    requires FieldEncodes(f, x, ops, prefix)
    ensures var encoded := f.codec.EncodeStart(ops, f.getter(x));
      (encoded.Success? && f.Required? ==>
         r == Success(ops.mergeAndAppend(prefix, ops.createString(f.name), encoded.value)))
      && (encoded.Success? && f.Optional? ==>
            r == Success(ops.prefixAfterMergeAndAppend(prefix, ops.createString(f.name), encoded.value)))
      && (encoded.Error? ==> r.Error? && r.message == encoded.message)
      && (encoded.Error? && f.Optional? ==> r == encoded)
      && (encoded.Error? && f.Required? ==>
            r.partial == (if encoded.partial.Some?
                          then Some(ops.mergeAndAppend(prefix, ops.createString(f.name), encoded.partial.value))
                          else None))
  {
    var key := ops.createString(f.name);
    var encoded := f.codec.EncodeStart(ops, f.getter(x));
    match f
    case Required(_, _, _) =>
      (match encoded
       case Success(e) => Success(ops.mergeAndAppend(prefix, key, e))
       case Error(m, p) => if p.Some? then Fail(m, Some(ops.mergeAndAppend(prefix, key, p.value))) else Fail(m, None))
    case Optional(_, _, _, _) =>
      if encoded.Error? then encoded
      else Success(ops.prefixAfterMergeAndAppend(prefix, key, encoded.GetOrThrow()))
  }

  /** `Encode` as intended for both kinds: the merged map, not the prefix. */
  function FieldEncodeIntended<T, V, F>(f: FieldCodec<T, V, F>, x: T, ops: Ops<F>, prefix: F): (r: DataResult<F>)
    requires FieldEncodes(f, x, ops, prefix)
    ensures var encoded := f.codec.EncodeStart(ops, f.getter(x));
      (encoded.Success? ==> r == Success(ops.mergeAndAppend(prefix, ops.createString(f.name), encoded.value)))
      && (encoded.Error? ==> r.Error? && r.message == encoded.message)
  {
    var key := ops.createString(f.name);
    var encoded := f.codec.EncodeStart(ops, f.getter(x));
    if f.Optional? then
      if encoded.Error? then encoded else Success(ops.mergeAndAppend(prefix, key, encoded.GetOrThrow()))
    else FieldEncode(f, x, ops, prefix)
  }

  /** The two agree on required fields, and on optional ones wherever `MergeAndAppend` returns its prefix. */
  lemma FieldEncodeAgreesWithIntended<T, V, F>(f: FieldCodec<T, V, F>, x: T, ops: Ops<F>, prefix: F)
    requires FieldEncodes(f, x, ops, prefix)
    requires f.Optional? && f.codec.EncodeStart(ops, f.getter(x)).Success? ==>
      var key := ops.createString(f.name);
      var e := f.codec.EncodeStart(ops, f.getter(x)).value;
      ops.prefixAfterMergeAndAppend(prefix, key, e) == ops.mergeAndAppend(prefix, key, e)
    ensures FieldEncode(f, x, ops, prefix) == FieldEncodeIntended(f, x, ops, prefix)
  {
  }

  /** An optional field writes its value even when it equals the default. */
  lemma OptionalFieldWritesDefault<T, V, F>(f: FieldCodec<T, V, F>, x: T, ops: Ops<F>, prefix: F)
    requires f.Optional? && f.getter(x) == f.defaultValue
    requires FieldEncodes(f, x, ops, prefix)
    requires f.codec.EncodeStart(ops, f.defaultValue).Success?
    ensures FieldEncode(f, x, ops, prefix)
      == Success(ops.prefixAfterMergeAndAppend(prefix, ops.createString(f.name), f.codec.EncodeStart(ops, f.defaultValue).value))
  {
  }

  /**
   * The field law of a map backend: the value stored under the key is found
   * again by `GetValue`.
   */
  ghost predicate StoresUnder<F>(ops: Ops<F>, output: F, name: string, e: F)
  {
    ops.getValue(output, name) == Success(e)
  }

  /**
   * A field whose codec round-trips its value is read back from any output in
   * which the backend stores the encoding under the field's key; the
   * remainder is `RemoveFromInput(output, CreateString(name))`.
   */
  lemma FieldReadsBack<T, V, F>(f: FieldCodec<T, V, F>, ops: Ops<F>, x: T, output: F)
    requires RoundTrips(f.codec, ops, f.getter(x))
    requires StoresUnder(ops, output, f.name, f.codec.EncodeStart(ops, f.getter(x)).value)
    ensures FieldDecodes(f, ops, output)
    ensures FieldDecode(f, ops, output) == Success((f.getter(x), ops.removeValue(output, ops.createString(f.name))))
  {
    RoundTripParses(f.codec, ops, f.getter(x));
  }

  /** A required field whose key is absent fails with the lookup's message. */
  lemma RequiredFieldMissing<T, V, F>(f: FieldCodec<T, V, F>, ops: Ops<F>, input: F)
    requires f.Required? && ops.getValue(input, f.name).Error?
    ensures FieldDecodes(f, ops, input)
    ensures FieldDecode(f, ops, input) == Error(ops.getValue(input, f.name).message, None)
  {
  }

  /** An optional field whose key is absent decodes to its default and leaves the input alone. */
  lemma OptionalFieldMissing<T, V, F>(f: FieldCodec<T, V, F>, ops: Ops<F>, input: F)
    requires f.Optional? && ops.getValue(input, f.name).Error?
    ensures FieldDecodes(f, ops, input)
    ensures FieldDecode(f, ops, input) == Success((f.defaultValue, input))
  {
  }
}
