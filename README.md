# DataFixerSharper, modelled in Dafny

DataFixerSharper is a codec library that does not depend on any one data format. A *codec* is
an encoder/decoder pair for one type:

- `Encode(x, ops, prefix)` produces a value of the format type `F`, wrapped in a `DataResult`.
- `Decode(ops, input)` produces a `DataResult` of the decoded value paired with the remaining input.

Codecs are written once, against a *dynamic ops* surface (`IDynamicOps<F>`), and run over any
backend. The repository ships two JSON backends:

- a UTF-8 byte buffer that encodes by appending bytes to a writer;
- a `System.Text.Json` node tree.

A `DataResult<T>` is either a success or an error. An error carries a message and possibly a
partial value. On top of the codecs sits a *data fixer* layer:

- `Dynamic` is a value paired with its ops.
- `DynamicResult` chains field edits.
- A static registry of version-tagged fixes migrates data between two versions.

What the project models:

- `Results`: the `DataResult` union and everything defined on it. This includes its quirks:
  - `Fail` stores a partial only when one is given.
  - `Evaluate` calls the error callback on a success.
- `DynamicOps`: the ops surface, as one datatype of function fields. It covers both generations of
  the API that the source mixes:
  - the declared interface with `ReadList`/`ReadMap`, the finalizers and `RemoveFromInput(F, string)`;
  - the calls the collection and field codecs actually make, such as `ReadAsStream`, `ReadAsMap`,
    `CreateList`, `CreateMap`, `Merge`, `MergeAndAppend` and `RemoveFromInput(F, F)`.

  The module also holds the integer Create/Get helpers, with the truncation toward zero and the
  range of each integer width written out.
- `Codecs`, plus one module per combinator: primitive, the builtin and primitive instances, the four
  mapped variants, either, constant, upcast, dispatch, list, enumerable, dictionary, field,
  record, and the field mappers `Fm1`…`Fm5`.
  - A codec is a datatype of two partial closures.
  - Where the source throws (a `GetOrThrow` on a failure, an unknown discriminator, an out-of-range
    decimal cast), the closure's precondition excludes that input.
  - `CodecFactories` holds the `Codec.*` factory methods.
- `Dynamics`, `DynamicResults`, `DataFixers`: the data fixer layer.
  - `DataFixer` is a class whose registry is an ordered sequence of (version, fixes) entries,
    kept sorted and well formed by `RegisterDatafix`.
  - `Migrate` is its nested loop, proved against a function.
- `JsonBytes`: the byte backend.
  - The buffer is a memory-or-writer value.
  - The writer is a class whose `written` bytes the list and map additions extend in place.
  - Merging two arrays or two objects fills a fresh `array<byte>`.
  - The lemmas say what the written bytes are: JSON array and object text (RFC 8259, sections 4
    and 5), elements joined by commas, and merging concatenates the members.
- `JsonNodes`: the node backend, as a `Json` datatype.
  - Objects are ordered key–value sequences, and the `Dicts` module gives them .NET dictionary
    semantics: replace in place, append new keys, remove.
  - The shared `Empty()` sentinel is a constructor of its own.
  - `DomOps` assembles these operations into an `Ops<Json>`.
- `Scenarios`: the repository's tests, stated as lemmas on the node backend, except
  `ConstantOnBytes`, which is on the byte backend.

Where the code and its documented intent disagree, the model follows the code. The section
"Findings" lists each case together with a corrected definition. Further cases:

- `OptionalFieldCodec.Encode` never compares the value with its default before writing it.
- `Fm2`…`Fm5` decode every field against the same input; they do not thread the remainder.
- The node backend's `JsonOps` class has no `GetValue`, list/map builders, `ReadList`/`ReadMap`,
  finalizers or `RemoveFromInput` by name. `JsonNodes.DomOps` supplies them:
  - `GetValue` is an object lookup.
  - The builders add to arrays and objects.
  - `ReadList` and `ReadMap` succeed on arrays and objects.
  - The removal by name deletes that key.

## Model

Some rows are definitional: the `CodecFactories` functions, the `BuiltinCodecs` codecs, `Codecs.Codec.EncodeStart`, `MappedCodecs.SafeMapEncode` and `DynamicOps.CreateInt8` … `CreateInt64`. Their contracts only name what they build. The round-trip lemmas beside them state what that construction guarantees.

| member | source | states |
|---|---|---|
| Results.DataResult.GetOrDefault | WhiteTowerGames.DataFixerSharper/Abstractions/DataResult.cs:78 | a success returns its value, an error returns the given default |
| Results.DataResult.ErrorMessage | WhiteTowerGames.DataFixerSharper/Abstractions/DataResult.cs:67-117 | the literal "Success!" for a success and the stored message for an error |
| Results.DataResult.GetOrThrow | WhiteTowerGames.DataFixerSharper/Abstractions/DataResult.cs:80-137 | defined only on a success (an ErrorResult throws), where it returns the value |
| Results.DataResult.ResultOrPartial | WhiteTowerGames.DataFixerSharper/Abstractions/DataResult.cs:134 | success gives its value; an error gives its stored partial, or the type default when none was stored |
| Results.DataResult.ResultOrConsume | WhiteTowerGames.DataFixerSharper/Abstractions/DataResult.cs:147-151 | success gives the value and reports no message; an error reports its message exactly once and gives the default |
| Results.DataResult.Map | WhiteTowerGames.DataFixerSharper/Abstractions/DataResult.cs:139-145 | success iff the receiver is a success; the converter is applied to the value, or to the partial when an error has one; the message is kept; without a partial the target default is used |
| Results.DataResult.UnsafeMap | WhiteTowerGames.DataFixerSharper/Abstractions/DataResult.cs:155-157 | success returns the converter's result as is; an error keeps its message and drops its partial in favour of the target default |
| Results.Ok | WhiteTowerGames.DataFixerSharper/Abstractions/DataResult.cs:5 | `Success(v)` is a success holding v |
| Results.Fail | WhiteTowerGames.DataFixerSharper/Abstractions/DataResult.cs:7-13 | an error with the message, carrying a partial exactly when one was supplied |
| Results.FailKeepsValueTypeDefault | WhiteTowerGames.DataFixerSharper/Abstractions/DataResult.cs:7-13 | for every type: a value-type default passed as the partial is kept, returned by ResultOrPartial and converted by Map; a reference type's null default stores no partial, and Map gives the target's default |
| Results.Evaluate | WhiteTowerGames.DataFixerSharper/Abstractions/DataResult.cs:69-76 | returns the receiver; as written, the success callback is never called and the error callback receives the receiver in both variants |
| Results.EvaluateIntended | WhiteTowerGames.DataFixerSharper/Abstractions/DataResult.cs:123-130 | the intended dispatch: a success goes to the success callback, an error to the error callback |
| Results.EvaluateSuccessCallsErrorFunc | WhiteTowerGames.DataFixerSharper/Abstractions/DataResult.cs:69-76 | on `Success(v)` the as-written Evaluate calls the error callback, so it differs from the intended one |
| Results.EvaluateAgreesOnErrors | WhiteTowerGames.DataFixerSharper/Abstractions/DataResult.cs:123-130 | on every error the two agree |
| Results.MapIdentity | WhiteTowerGames.DataFixerSharper/Abstractions/DataResult.cs:84-85 | mapping with the identity leaves a result unchanged when any error in it has a partial |
| Results.MapCompose | WhiteTowerGames.DataFixerSharper/Abstractions/DataResult.cs:139-145 | two Maps are the Map of the composed converter |
| Results.UnsafeMapOfSuccess | WhiteTowerGames.DataFixerSharper/Abstractions/DataResult.cs:91-94 | UnsafeMap with an always-successful converter is Map on a success, and drops the partial on an error |
| DynamicOps.Truncate | WhiteTowerGames.DataFixerSharper/Abstractions/IDynamicOps.cs:70 | the decimal→integer cast truncates toward zero: the result is within 1 of the input, on the zero side |
| DynamicOps.TruncateOfInt | WhiteTowerGames.DataFixerSharper/Abstractions/IDynamicOps.cs:46-56 | truncating a widened integer gives the integer back |
| DynamicOps.GetInt8 | WhiteTowerGames.DataFixerSharper/Abstractions/IDynamicOps.cs:64-71 | succeeds iff GetNumber does, with the truncated value; otherwise GetNumber's message with partial 0 |
| DynamicOps.GetInt16 | WhiteTowerGames.DataFixerSharper/Abstractions/IDynamicOps.cs:73-80 | the same for 16 bits |
| DynamicOps.GetInt32 | WhiteTowerGames.DataFixerSharper/Abstractions/IDynamicOps.cs:82-89 | the same for 32 bits |
| DynamicOps.GetInt64 | WhiteTowerGames.DataFixerSharper/Abstractions/IDynamicOps.cs:91-98 | the same for 64 bits |
| DynamicOps.IntegersRoundTrip | WhiteTowerGames.DataFixerSharper/Abstractions/IDynamicOps.cs:46-98 | on a backend whose GetNumber reads back CreateNumeric, every GetIntN(CreateIntN(v)) succeeds with v |
| DynamicOps.CreateInt8 | WhiteTowerGames.DataFixerSharper/Abstractions/IDynamicOps.cs:46-47 | the 8-bit integer is written as the decimal it denotes; `IntegersRoundTrip` reads it back |
| DynamicOps.CreateInt16 | WhiteTowerGames.DataFixerSharper/Abstractions/IDynamicOps.cs:49-50 | the same for 16 bits |
| DynamicOps.CreateInt32 | WhiteTowerGames.DataFixerSharper/Abstractions/IDynamicOps.cs:52-53 | the same for 32 bits |
| DynamicOps.CreateInt64 | WhiteTowerGames.DataFixerSharper/Abstractions/IDynamicOps.cs:55-56 | the same for 64 bits |
| Codecs.Codec.Parse | WhiteTowerGames.DataFixerSharper/Codecs/Codec.cs:38-39 | Decode with the remainder dropped: same success, same value, same message, the partial's value |
| Codecs.Codec.EncodeStart | WhiteTowerGames.DataFixerSharper/Codecs/Codec.cs:35-36 | encoding starts from the backend's empty value; `RoundTripParses` reads the result back |
| Codecs.RoundTripParses | WhiteTowerGames.DataFixerSharper/Codecs/Codec.cs:35-39 | a value that round-trips is read back by Parse after EncodeStart |
| PrimitiveCodecs.PrimitiveDecode | WhiteTowerGames.DataFixerSharper/Codecs/PrimitiveCodec.cs:23-35 | the decoder's success is returned unchanged; its failure becomes "Failed to decode primitive value: " + message, with no partial |
| PrimitiveCodecs.PrimitiveEncode | WhiteTowerGames.DataFixerSharper/Codecs/PrimitiveCodec.cs:38-51 | the encoder's success is returned; its failure becomes "Failed to encode primitive value: " + message |
| PrimitiveCodecs.PrimitiveEncodeIgnoresPrefix | WhiteTowerGames.DataFixerSharper/Codecs/PrimitiveCodec.cs:38-51 | the encoding does not depend on the prefix |
| Primitives.Int32Decode | WhiteTowerGames.DataFixerSharper/Codecs/PrimitiveCodec/Primitives.cs:5-16 | GetInt32 paired with the unchanged input; a failure keeps GetNumber's message |
| Primitives.Int64Decode | WhiteTowerGames.DataFixerSharper/Codecs/PrimitiveCodec/Primitives.cs:18-29 | the same for Int64 |
| Primitives.Int8Decode | WhiteTowerGames.DataFixerSharper/Codecs/PrimitiveCodec/Primitives.cs:91-102 | the same for Int8 |
| Primitives.Int16Decode | WhiteTowerGames.DataFixerSharper/Codecs/PrimitiveCodec/Primitives.cs:104-115 | the same for Int16 |
| Primitives.BoolDecode | WhiteTowerGames.DataFixerSharper/Codecs/PrimitiveCodec/Primitives.cs:61-72 | GetBool paired with the input; a failure keeps GetBool's message |
| Primitives.StringDecode | WhiteTowerGames.DataFixerSharper/Codecs/PrimitiveCodec/Primitives.cs:74-89 | GetString paired with the input; a failure keeps GetString's message |
| Primitives.IntegerCodecsRoundTrip | WhiteTowerGames.DataFixerSharper/Codecs/PrimitiveCodec/Primitives.cs:5-29 | the four integer codecs round-trip every value on a backend that reads numbers back |
| Primitives.BoolAndStringCodecsRoundTrip | WhiteTowerGames.DataFixerSharper/Codecs/PrimitiveCodec/Primitives.cs:61-89 | the bool and string codecs round-trip on a backend that reads them back |
| Primitives.PrimitivesIgnorePrefix | WhiteTowerGames.DataFixerSharper/Codecs/PrimitiveCodec/Primitives.cs:12-15 | encoding ignores the prefix |
| BuiltinCodecs.BuiltinDecodersNeverFail | WhiteTowerGames.DataFixerSharper/BuiltinCodecs.cs:8-54 | on a readable input each builtin decoder succeeds with the value read and the unchanged input |
| BuiltinCodecs.BuiltinDecodersThrowOnWrongShape | WhiteTowerGames.DataFixerSharper/BuiltinCodecs.cs:12 | a builtin decoder is defined exactly when the read succeeds (and, for integers, is in range); otherwise the source's GetOrThrow throws |
| BuiltinCodecs.BuiltinEncodersNeverFail | WhiteTowerGames.DataFixerSharper/BuiltinCodecs.cs:9 | each builtin encoder succeeds with the matching Create of its input, whatever the prefix |
| BuiltinCodecs.BuiltinsRoundTrip | WhiteTowerGames.DataFixerSharper/BuiltinCodecs.cs:8-54 | every builtin round-trips on a backend that reads its primitives back |
| BuiltinCodecs.Int32 | WhiteTowerGames.DataFixerSharper/BuiltinCodecs.cs:8-14 | a primitive codec writing with CreateInt32 and reading with GetInt32 then GetOrThrow; its encoder, decoder and round trip are stated by the three lemmas above |
| BuiltinCodecs.Int64 | WhiteTowerGames.DataFixerSharper/BuiltinCodecs.cs:16-22 | the same with CreateInt64 and GetInt64 |
| BuiltinCodecs.String | WhiteTowerGames.DataFixerSharper/BuiltinCodecs.cs:40-46 | the same with CreateString and GetString |
| BuiltinCodecs.Bool | WhiteTowerGames.DataFixerSharper/BuiltinCodecs.cs:48-54 | the same with CreateBool and GetBool |
| MappedCodecs.SafeMapEncode | WhiteTowerGames.DataFixerSharper/Codecs/MappedCodecs.cs:25-28 | the underlying encoding of `from(x)` with the same prefix |
| MappedCodecs.SafeMapDecode | WhiteTowerGames.DataFixerSharper/Codecs/MappedCodecs.cs:30-33 | `to` applied to the underlying value, same remainder; a failure keeps its message |
| MappedCodecs.FallibleEncode | WhiteTowerGames.DataFixerSharper/Codecs/MappedCodecs.cs:54-63 | a failing `from` gives its message without touching the underlying codec; otherwise the underlying encoding |
| MappedCodecs.FallibleDecode | WhiteTowerGames.DataFixerSharper/Codecs/MappedCodecs.cs:65-70 | fails with the underlying message, or with `to`'s; on success `to`'s value and the underlying remainder |
| MappedCodecs.SafeMapRoundTrips | WhiteTowerGames.DataFixerSharper/Codecs/MappedCodecs.cs:25-33 | round-trips when the underlying codec does and `to` inverts `from` |
| MappedCodecs.UnsafeMapRoundTrips | WhiteTowerGames.DataFixerSharper/Codecs/MappedCodecs.cs:54-70 | the same with fallible directions |
| MappedCodecs.Safe2UnsafeMapRoundTrips | WhiteTowerGames.DataFixerSharper/Codecs/MappedCodecs.cs:91-105 | the same with a fallible encode direction |
| MappedCodecs.Unsafe2SafeMapRoundTrips | WhiteTowerGames.DataFixerSharper/Codecs/MappedCodecs.cs:126-136 | the same with a fallible decode direction |
| MappedCodecs.FallibleEncodeRejects | WhiteTowerGames.DataFixerSharper/Codecs/MappedCodecs.cs:56-58 | a failing `from` makes the encode fail with its message and no partial |
| CodecFactories.SafeMapFactoryRoundTrips | WhiteTowerGames.DataFixerSharper/Codecs/Codec.cs:44-45 | `SafeMap(from, to)` passes its arguments to the codec in swapped order and round-trips |
| CodecFactories.UnsafeMapFactoryRoundTrips | WhiteTowerGames.DataFixerSharper/Codecs/Codec.cs:48-51 | the same for `UnsafeMap` |
| CodecFactories.DispatchDefaultsToTypeKey | WhiteTowerGames.DataFixerSharper/Codecs/Codec.cs:13-24 | a dispatch codec built without a key name looks for "type" |
| CodecFactories.ForList | WhiteTowerGames.DataFixerSharper/Codecs/Codec.cs:41 | the list codec as written over the element codec |
| CodecFactories.SafeMap | WhiteTowerGames.DataFixerSharper/Codecs/Codec.cs:44-45 | the safe mapped codec with `to` and `from` swapped into the combinator's order; `SafeMapFactoryRoundTrips` is its round trip |
| CodecFactories.UnsafeMap | WhiteTowerGames.DataFixerSharper/Codecs/Codec.cs:48-51 | the same for the fully fallible mapping; `UnsafeMapFactoryRoundTrips` |
| CodecFactories.Safe2UnsafeMap | WhiteTowerGames.DataFixerSharper/Codecs/Codec.cs:54-57 | the same for the mapping whose `from` may fail |
| CodecFactories.Safe2UnsafeMapFactoryRoundTrips | WhiteTowerGames.DataFixerSharper/Codecs/Codec.cs:54-57 | `Safe2UnsafeMap(from, to)` round-trips `x` when `from` succeeds on it, the codec round-trips the result and `to` undoes it |
| CodecFactories.Unsafe2SafeMap | WhiteTowerGames.DataFixerSharper/Codecs/Codec.cs:60-63 | the same for the mapping whose `to` may fail |
| CodecFactories.Unsafe2SafeMapFactoryRoundTrips | WhiteTowerGames.DataFixerSharper/Codecs/Codec.cs:60-63 | `Unsafe2SafeMap(from, to)` round-trips `x` when the codec round-trips `from(x)` and `to` gives back a success holding `x` |
| CodecFactories.Either | WhiteTowerGames.DataFixerSharper/Codecs/Codec.cs:65-66 | the either codec over the first and the second codec, in that order |
| CodecFactories.Constant | WhiteTowerGames.DataFixerSharper/Codecs/Codec.cs:71 | the constant codec of the value; the receiver plays no part |
| CodecFactories.Dictionary | WhiteTowerGames.DataFixerSharper/Codecs/Codec.cs:7-11 | the dictionary codec over the key and value codecs |
| CodecFactories.Dispatch | WhiteTowerGames.DataFixerSharper/Codecs/Codec.cs:13-24 | the dispatch codec with getter, discriminator codec, codec getter and key name in the constructor's order, the key name "type" by default |
| CodecFactories.Upcast | WhiteTowerGames.DataFixerSharper/Codecs/Codec.cs:79-83 | the upcast codec over the derived type's codec |
| EitherCodecs.EitherDecode | WhiteTowerGames.DataFixerSharper/Codecs/EitherCodec.cs:16-30 | first success wins, else the second's success, else the second's message with no partial |
| EitherCodecs.EitherEncode | WhiteTowerGames.DataFixerSharper/Codecs/EitherCodec.cs:32-47 | the same rule for encoding, both given the same prefix |
| EitherCodecs.EitherRoundTripsFirst | WhiteTowerGames.DataFixerSharper/Codecs/EitherCodec.cs:16-47 | a value the first codec round-trips round-trips through Either |
| EitherCodecs.EitherRoundTripsSecond | WhiteTowerGames.DataFixerSharper/Codecs/EitherCodec.cs:16-47 | so does one the first cannot encode, when the first also rejects the second's output |
| EitherCodecs.EitherDecodePrefersFirst | WhiteTowerGames.DataFixerSharper/Codecs/EitherCodec.cs:21-23 | when the first codec also decodes the second's output, Either reads back the first's value |
| ConstantCodecs.ConstantDecode | WhiteTowerGames.DataFixerSharper/Codecs/ConstantCodec.cs:14-17 | always succeeds with the stored value and the input as remainder |
| ConstantCodecs.ConstantEncode | WhiteTowerGames.DataFixerSharper/Codecs/ConstantCodec.cs:19-23 | always succeeds with `ops.Empty()` |
| ConstantCodecs.ConstantParsesToItsValue | WhiteTowerGames.DataFixerSharper/Codecs/ConstantCodec.cs:14-23 | every value encodes to Empty, which parses to the stored value |
| ConstantCodecs.ConstantRoundTripsOnlyItsValue | WhiteTowerGames.DataFixerSharper/Codecs/ConstantCodec.cs:14-23 | a value round-trips iff it is the stored value |
| UpcastCodecs.UpcastDecode | WhiteTowerGames.DataFixerSharper/Codecs/UpcastCodec.cs:15-18 | the derived value seen as the base type, same remainder; failures keep their message |
| UpcastCodecs.UpcastEncode | WhiteTowerGames.DataFixerSharper/Codecs/UpcastCodec.cs:20-32 | a value of another runtime type fails with "expected object of type …"; a derived value is the derived codec's encoding |
| UpcastCodecs.UpcastRoundTrips | WhiteTowerGames.DataFixerSharper/Codecs/UpcastCodec.cs:15-32 | an upcast derived value round-trips when the derived codec round-trips it |
| UpcastCodecs.UpcastRefusesOtherTypes | WhiteTowerGames.DataFixerSharper/Codecs/UpcastCodec.cs:26-29 | encoding a value of another type returns the failure instead of throwing |
| DispatchCodecs.DispatchDecode | WhiteTowerGames.DataFixerSharper/Codecs/DispatchCodec.cs:25-49 | a missing key fails naming it, a bad discriminator fails with "Failed to decode type discriminator", else the selected codec's decode of the input as RemoveFromInput leaves it: with the key removed on the node backend, unchanged on the byte backend |
| DispatchCodecs.DispatchEncode | WhiteTowerGames.DataFixerSharper/Codecs/DispatchCodec.cs:51-70 | the discriminator's failure, else the selected codec's encoding onto MergeAndAppend(prefix, key, discriminator) |
| DispatchCodecs.DispatchRoundTrips | WhiteTowerGames.DataFixerSharper/Codecs/DispatchCodec.cs:25-70 | a value round-trips when its discriminator and its variant codec do and the stored key reads back |
| ListCodecs.AllParseDefined | WhiteTowerGames.DataFixerSharper/Codecs/ListCodec.cs:68-78 | when every element parses, the consumer collects every parsed element, in order |
| ListCodecs.ParseAllSucceedsIff | WhiteTowerGames.DataFixerSharper/Codecs/ListCodec.cs:68-78 | the collection succeeds iff every element parses |
| ListCodecs.ParseAllFirstFailure | WhiteTowerGames.DataFixerSharper/Codecs/ListCodec.cs:70-75 | a failed collection carries the message of the first failing element, all before it parsing |
| ListCodecs.ListDecodeSpec | WhiteTowerGames.DataFixerSharper/Codecs/ListCodec.cs:14-31 | ReadList's failure passes through with its message; a success keeps the input as remainder |
| ListCodecs.DecodeState.constructor | WhiteTowerGames.DataFixerSharper/Codecs/ListCodec.cs:86-90 | a fresh state holds no elements and a success |
| ListCodecs.DecodeState.Add | WhiteTowerGames.DataFixerSharper/Codecs/ListCodec.cs:92 | appends the element and changes nothing else |
| ListCodecs.Accept | WhiteTowerGames.DataFixerSharper/Codecs/ListCodec.cs:68-78 | a failed state is left alone; an element that fails is recorded as the error; one that parses is appended |
| ListCodecs.ListDecode | WhiteTowerGames.DataFixerSharper/Codecs/ListCodec.cs:14-31 | the decode loop computes ListDecodeSpec |
| ListCodecs.PrefixParses | WhiteTowerGames.DataFixerSharper/Codecs/ListCodec.cs:68-78 | the definedness of the collection holds for every prefix of the elements |
| ListCodecs.ListEncode | WhiteTowerGames.DataFixerSharper/Codecs/ListCodec.cs:33-54 | the encode loop computes the as-written encoding ListEncodeSpec |
| ListCodecs.PrefixEncodes | WhiteTowerGames.DataFixerSharper/Codecs/ListCodec.cs:40-50 | the loop is defined on every prefix of a sequence it is defined on |
| ListCodecs.StoppedStaysStopped | WhiteTowerGames.DataFixerSharper/Codecs/ListCodec.cs:42-44 | once the loop has returned a failure, later elements change nothing |
| ListCodecs.ListEncodeStopsAtFirstFailure | WhiteTowerGames.DataFixerSharper/Codecs/ListCodec.cs:40-44 | the encoding is the failure of the first element that does not encode |
| ListCodecs.AddsSucceedRunning | WhiteTowerGames.DataFixerSharper/Codecs/ListCodec.cs:40-50 | when every AddToList succeeds, the loop ends holding the list they built |
| ListCodecs.ListEncodeKeepsPrefix | WhiteTowerGames.DataFixerSharper/Codecs/ListCodec.cs:52-53 | as written, a successful encode returns the prefix as AppendToPrefix left it, not AppendToPrefix's result |
| ListCodecs.AddFailureIsNotReturned | WhiteTowerGames.DataFixerSharper/Codecs/ListCodec.cs:46-48 | as written, a failing AddToList on the last element is never returned: the source throws instead |
| ListCodecs.BuildListIntended | WhiteTowerGames.DataFixerSharper/Codecs/ListCodec.cs:33-50 | the intended loop builds the same list when every addition succeeds |
| ListCodecs.ListEncodeIntended | WhiteTowerGames.DataFixerSharper/Codecs/ListCodec.cs:33-54 | the intended encode returns AppendToPrefix(prefix, list), or the first failure |
| ListCodecs.AddFailureIsReturnedIntended | WhiteTowerGames.DataFixerSharper/Codecs/ListCodec.cs:46-48 | the intended encode returns a failing AddToList's result |
| ListCodecs.Encodings | WhiteTowerGames.DataFixerSharper/Codecs/ListCodec.cs:40-44 | one encoding per element, in order; each parses back to its element when that element round-trips |
| ListCodecs.ListIntendedRoundTrips | WhiteTowerGames.DataFixerSharper/Codecs/ListCodec.cs:14-54 | the intended list codec round-trips a sequence whose elements round-trip, on a backend whose built lists read back |
| EnumerableCodecs.EnumerableDecodeSpec | WhiteTowerGames.DataFixerSharper/Codecs/EnumerableCodec.cs:14-45 | "Not a valid array: " + ReadAsStream's message; otherwise the parsed elements in order with the input as remainder, or "Failed to decode element: " + the first failure, with no partial |
| EnumerableCodecs.EnumerableDecode | WhiteTowerGames.DataFixerSharper/Codecs/EnumerableCodec.cs:28-42 | the decode loop computes EnumerableDecodeSpec |
| EnumerableCodecs.ParseAllStaysFailed | WhiteTowerGames.DataFixerSharper/Codecs/EnumerableCodec.cs:30-34 | after the first failing element, the rest are not looked at |
| EnumerableCodecs.EnumerableEncodeSpec | WhiteTowerGames.DataFixerSharper/Codecs/EnumerableCodec.cs:47-68 | CreateList of the encoded elements in order, or the first failure; the prefix is not used |
| EnumerableCodecs.EnumerableEncode | WhiteTowerGames.DataFixerSharper/Codecs/EnumerableCodec.cs:53-67 | the encode loop computes EnumerableEncodeSpec |
| EnumerableCodecs.PrefixEncodesUntilFailure | WhiteTowerGames.DataFixerSharper/Codecs/EnumerableCodec.cs:55-60 | definedness holds on prefixes |
| EnumerableCodecs.EncodeAllStaysFailed | WhiteTowerGames.DataFixerSharper/Codecs/EnumerableCodec.cs:55-60 | after the first failing element, the rest are not encoded |
| EnumerableCodecs.AllEncodeEncodeAll | WhiteTowerGames.DataFixerSharper/Codecs/EnumerableCodec.cs:53-62 | when all elements encode, the encoded list is their encodings in order |
| EnumerableCodecs.EnumerableRoundTrips | WhiteTowerGames.DataFixerSharper/Codecs/EnumerableCodec.cs:14-68 | a sequence round-trips when its elements do and the backend's lists read back |
| DictionaryCodecs.DictionaryDecodeSpec | WhiteTowerGames.DataFixerSharper/Codecs/DictionaryCodec.cs:17-55 | a non-map fails with "Input was not a valid dictionary/map."; otherwise the pairs are decoded in order |
| DictionaryCodecs.DecodePairsDistinct | WhiteTowerGames.DataFixerSharper/Codecs/DictionaryCodec.cs:33-53 | the decoded dictionary, and a failure's partial dictionary, has distinct keys |
| DictionaryCodecs.DecodePairsLaterWins | WhiteTowerGames.DataFixerSharper/Codecs/DictionaryCodec.cs:49-51 | a later pair with the same key overwrites the earlier value |
| DictionaryCodecs.DictionaryDecode | WhiteTowerGames.DataFixerSharper/Codecs/DictionaryCodec.cs:17-55 | the decode loop computes DictionaryDecodeSpec |
| DictionaryCodecs.PrefixPairsDecode | WhiteTowerGames.DataFixerSharper/Codecs/DictionaryCodec.cs:33-53 | definedness holds on prefixes of the pairs |
| DictionaryCodecs.DecodePairsStaysFailed | WhiteTowerGames.DataFixerSharper/Codecs/DictionaryCodec.cs:35-47 | the first key or value failure ends decoding |
| DictionaryCodecs.EncodePairsFailureHasPartial | WhiteTowerGames.DataFixerSharper/Codecs/DictionaryCodec.cs:65-79 | every key/value encode failure carries the pairs encoded so far |
| DictionaryCodecs.DictionaryEncodeSpec | WhiteTowerGames.DataFixerSharper/Codecs/DictionaryCodec.cs:57-85 | AppendToPrefix(prefix, CreateMap(pairs)), or a failure whose partial is CreateMap of the pairs encoded so far |
| DictionaryCodecs.DictionaryEncode | WhiteTowerGames.DataFixerSharper/Codecs/DictionaryCodec.cs:57-85 | the encode loop computes DictionaryEncodeSpec |
| DictionaryCodecs.PrefixPairsEncode | WhiteTowerGames.DataFixerSharper/Codecs/DictionaryCodec.cs:65-82 | definedness holds on prefixes of the entries |
| DictionaryCodecs.EncodePairsStaysFailed | WhiteTowerGames.DataFixerSharper/Codecs/DictionaryCodec.cs:65-79 | the first failure ends encoding |
| DictionaryCodecs.EncodedEntries | WhiteTowerGames.DataFixerSharper/Codecs/DictionaryCodec.cs:81 | one encoded pair per entry, in enumeration order |
| DictionaryCodecs.EncodePairsAll | WhiteTowerGames.DataFixerSharper/Codecs/DictionaryCodec.cs:65-82 | when all keys and values encode, the encoded pairs are their encodings in order |
| DictionaryCodecs.DecodePairsAll | WhiteTowerGames.DataFixerSharper/Codecs/DictionaryCodec.cs:33-53 | decoding the encoded pairs of a dictionary with distinct keys gives it back |
| DictionaryCodecs.DictionaryRoundTrips | WhiteTowerGames.DataFixerSharper/Codecs/DictionaryCodec.cs:17-85 | a dictionary round-trips when its keys and values do and the backend's maps read back |
| Dicts.LookupIn | WhiteTowerGames.DataFixerSharper/Codecs/DictionaryCodec.cs:51 | a key is found iff it is among the keys |
| Dicts.PutLookup | WhiteTowerGames.DataFixerSharper/Codecs/DictionaryCodec.cs:51 | after `d[k] = v`, k holds v and every other key is unchanged |
| Dicts.PutKeys | WhiteTowerGames.DataFixerSharper/Codecs/DictionaryCodec.cs:51 | the keys after `d[k] = v` are the old keys and k |
| Dicts.PutNew | WhiteTowerGames.DataFixerSharper/JsonOps.cs:118 | a new key is appended at the end; an existing one keeps its place |
| Dicts.DistinctTail | WhiteTowerGames.DataFixerSharper/Codecs/DictionaryCodec.cs:51 | the rest of a dictionary with distinct keys has distinct keys, and lacks the first key |
| Dicts.PutDistinct | WhiteTowerGames.DataFixerSharper/Codecs/DictionaryCodec.cs:51 | `d[k] = v` keeps keys distinct |
| Dicts.PutAllDistinct | WhiteTowerGames.DataFixerSharper/JsonOps.cs:66-74 | writing the entries of a dictionary with distinct keys into an empty one rebuilds it |
| Dicts.PutAllLookup | WhiteTowerGames.DataFixerSharper/JsonOps.cs:66-74 | after a run of writes, a key holds the last value written to it, or its old value |
| Dicts.RemoveKeyLookup | WhiteTowerGames.DataFixerSharper/JsonOps.cs:133 | `Remove(k)` deletes k and keeps every other key's value |
| Dicts.RemoveKeysLookup | WhiteTowerGames.DataFixerSharper/JsonOps.cs:128-137 | after removing a sequence of keys, exactly those are gone |
| FieldCodecs.Field | WhiteTowerGames.DataFixerSharper/Codecs/RecordCodec/FieldCodecs.cs:7-11 | builds a required field with the given codec, getter and name |
| FieldCodecs.OptionalField | WhiteTowerGames.DataFixerSharper/Codecs/RecordCodec/FieldCodecs.cs:13-18 | builds an optional field that also stores its default |
| FieldCodecs.FieldDecode | WhiteTowerGames.DataFixerSharper/Codecs/RecordCodec/FieldCodecs.cs:40-53 | a missing required key fails with GetValue's message; a missing optional key gives (default, input); a present key gives the parsed value and the input as RemoveFromInput(input, CreateString(name)) leaves it, which is unchanged on both shipped backends, or the codec's failure |
| FieldCodecs.FieldEncode | WhiteTowerGames.DataFixerSharper/Codecs/RecordCodec/FieldCodecs.cs:55-60 | an encode failure passes through; a required field returns MergeAndAppend(prefix, name, value); an optional field returns the prefix as the write left it |
| FieldCodecs.FieldEncodeIntended | WhiteTowerGames.DataFixerSharper/Codecs/RecordCodec/FieldCodecs.cs:98-111 | the intended optional encode returns MergeAndAppend's result, like the required one |
| FieldCodecs.FieldEncodeAgreesWithIntended | WhiteTowerGames.DataFixerSharper/Codecs/RecordCodec/FieldCodecs.cs:55-60 | on required fields, and whenever the write into the prefix is the merge, the two agree |
| FieldCodecs.OptionalFieldWritesDefault | WhiteTowerGames.DataFixerSharper/Codecs/RecordCodec/FieldCodecs.cs:98-111 | an optional field equal to its default is still written |
| FieldCodecs.FieldReadsBack | WhiteTowerGames.DataFixerSharper/Codecs/RecordCodec/FieldCodecs.cs:40-53 | a field written under its name decodes back to the getter's value, with the input as RemoveFromInput(input, CreateString(name)) leaves it, which is unchanged on both shipped backends |
| FieldCodecs.RequiredFieldMissing | WhiteTowerGames.DataFixerSharper/Codecs/RecordCodec/FieldCodecs.cs:42-44 | a missing required key fails with GetValue's message and no partial |
| FieldCodecs.OptionalFieldMissing | WhiteTowerGames.DataFixerSharper/Codecs/RecordCodec/FieldCodecs.cs:85-87 | a missing optional key succeeds with the default and the unchanged input |
| RecordCodecs.Record1Decode | WhiteTowerGames.DataFixerSharper/Codecs/RecordCodec/RecordCodec.cs:16-28 | the field's failure, or the factory applied to its value with its remainder |
| RecordCodecs.Record1Encode | WhiteTowerGames.DataFixerSharper/Codecs/RecordCodec/RecordCodec.cs:30-40 | the field's failure, or AppendToPrefix(prefix, field written onto CreateEmptyMap) |
| RecordCodecs.Record1RoundTrips | WhiteTowerGames.DataFixerSharper/Codecs/RecordCodec/RecordCodec.cs:16-40 | a record whose field reads back and whose factory rebuilds it round-trips |
| RecordCodecs.Record2Decode | WhiteTowerGames.DataFixerSharper/Codecs/RecordCodec/RecordCodec.cs:56-75 | fields decoded in order, each on the previous remainder; the first failure is returned without calling the factory |
| RecordCodecs.Record2Encode | WhiteTowerGames.DataFixerSharper/Codecs/RecordCodec/RecordCodec.cs:77-92 | fields written in order from CreateEmptyMap; the first failure is returned; else AppendToPrefix of the map |
| RecordCodecs.Record2RoundTrips | WhiteTowerGames.DataFixerSharper/Codecs/RecordCodec/RecordCodec.cs:56-92 | round-trips when each field reads back from the threaded remainder |
| RecordCodecs.Record3Decode | WhiteTowerGames.DataFixerSharper/Codecs/RecordCodec/RecordCodec.cs:115-140 | the same for three fields |
| RecordCodecs.Record3Encode | WhiteTowerGames.DataFixerSharper/Codecs/RecordCodec/RecordCodec.cs:142-161 | the same for three fields |
| RecordCodecs.Record3RoundTrips | WhiteTowerGames.DataFixerSharper/Codecs/RecordCodec/RecordCodec.cs:115-161 | the same for three fields |
| RecordCodecs.Record2StopsAtFirstFailure | WhiteTowerGames.DataFixerSharper/Codecs/RecordCodec/RecordCodec.cs:60-67 | a failing first field is returned and the second is not decoded |
| FieldMappers.Entry | WhiteTowerGames.DataFixerSharper/Codecs/RecordCodec/FieldMapper.cs:25-29 | the (name, encoded value) entry a field adds to the map builder; the name reads back as the field's name when strings round-trip, and the value parses back to the getter's value when the field's codec round-trips it |
| FieldMappers.Fm1.constructor | WhiteTowerGames.DataFixerSharper/Codecs/RecordCodec/FieldMapper.cs:15-18 | stores the field, with no constructor yet |
| FieldMappers.Fm1.WithCtor | WhiteTowerGames.DataFixerSharper/Codecs/RecordCodec/FieldMapper.cs:31-35 | stores the constructor and returns the same instance |
| FieldMappers.Fm1.Decode | WhiteTowerGames.DataFixerSharper/Codecs/RecordCodec/FieldMapper.cs:22-23 | the field's result mapped through the constructor, keeping its remainder; defined only once a constructor is set, on success and failure alike; a failure keeps the field's message |
| FieldMappers.Fm1.Encode | WhiteTowerGames.DataFixerSharper/Codecs/RecordCodec/FieldMapper.cs:25-29 | Build(prefix) of the field's entry |
| FieldMappers.Fm1RoundTrips | WhiteTowerGames.DataFixerSharper/Codecs/RecordCodec/FieldMapper.cs:22-29 | round-trips when the built map reads the field back and the constructor rebuilds the value |
| FieldMappers.Fm2.constructor | WhiteTowerGames.DataFixerSharper/Codecs/RecordCodec/FieldMapper.cs:43-47 | stores the fields, with no constructor yet |
| FieldMappers.Fm2.WithCtor | WhiteTowerGames.DataFixerSharper/Codecs/RecordCodec/FieldMapper.cs:72-76 | stores the constructor and returns the same instance |
| FieldMappers.Fm2.Decode | WhiteTowerGames.DataFixerSharper/Codecs/RecordCodec/FieldMapper.cs:51-64 | each field decoded against the same input; the first failure's message; else ctor of the values, with the original input as remainder |
| FieldMappers.Fm2.Encode | WhiteTowerGames.DataFixerSharper/Codecs/RecordCodec/FieldMapper.cs:66-70 | Build(prefix) of the fields' entries in declaration order |
| FieldMappers.Fm2RoundTrips | WhiteTowerGames.DataFixerSharper/Codecs/RecordCodec/FieldMapper.cs:51-70 | round-trips when the built map reads each field back |
| FieldMappers.Fm3.constructor | WhiteTowerGames.DataFixerSharper/Codecs/RecordCodec/FieldMapper.cs:85-90 | stores the fields, with no constructor yet |
| FieldMappers.Fm3.WithCtor | WhiteTowerGames.DataFixerSharper/Codecs/RecordCodec/FieldMapper.cs:120-124 | stores the constructor and returns the same instance |
| FieldMappers.Fm3.Decode | WhiteTowerGames.DataFixerSharper/Codecs/RecordCodec/FieldMapper.cs:94-111 | as for Fm2, with three fields |
| FieldMappers.Fm3.Encode | WhiteTowerGames.DataFixerSharper/Codecs/RecordCodec/FieldMapper.cs:113-118 | as for Fm2, with three fields |
| FieldMappers.Fm3RoundTrips | WhiteTowerGames.DataFixerSharper/Codecs/RecordCodec/FieldMapper.cs:94-118 | as for Fm2, with three fields |
| FieldMappers.Fm4.constructor | WhiteTowerGames.DataFixerSharper/Codecs/RecordCodec/FieldMapper.cs:134-145 | stores the fields, with no constructor yet |
| FieldMappers.Fm4.WithCtor | WhiteTowerGames.DataFixerSharper/Codecs/RecordCodec/FieldMapper.cs:191-195 | stores the constructor and returns the same instance |
| FieldMappers.Fm4.Decode | WhiteTowerGames.DataFixerSharper/Codecs/RecordCodec/FieldMapper.cs:149-178 | as for Fm2, with four fields |
| FieldMappers.Fm4.Encode | WhiteTowerGames.DataFixerSharper/Codecs/RecordCodec/FieldMapper.cs:180-189 | as for Fm2, with four fields |
| FieldMappers.Fm4RoundTrips | WhiteTowerGames.DataFixerSharper/Codecs/RecordCodec/FieldMapper.cs:149-189 | as for Fm2, with four fields |
| FieldMappers.Fm5.constructor | WhiteTowerGames.DataFixerSharper/Codecs/RecordCodec/FieldMapper.cs:206-219 | stores the fields, with no constructor yet |
| FieldMappers.Fm5.WithCtor | WhiteTowerGames.DataFixerSharper/Codecs/RecordCodec/FieldMapper.cs:274-278 | stores the constructor and returns the same instance |
| FieldMappers.Fm5.Decode | WhiteTowerGames.DataFixerSharper/Codecs/RecordCodec/FieldMapper.cs:223-257 | as for Fm2, with five fields |
| FieldMappers.Fm5.Encode | WhiteTowerGames.DataFixerSharper/Codecs/RecordCodec/FieldMapper.cs:259-272 | as for Fm2, with five fields |
| FieldMappers.Fm5RoundTrips | WhiteTowerGames.DataFixerSharper/Codecs/RecordCodec/FieldMapper.cs:223-272 | as for Fm2, with five fields |
| FieldMappers.Fm2AgreesWithRecordCodec2 | WhiteTowerGames.DataFixerSharper/Codecs/RecordCodec/FieldMapper.cs:53-57 | when the first field leaves the input unchanged, Fm2 decodes like RecordCodec2 |
| Dynamics.Get | WhiteTowerGames.DataFixerSharper/Datafixers/Dynamic.cs:16-23 | GetValue's failure message, or the field's value wrapped with the same ops |
| Dynamics.Step | WhiteTowerGames.DataFixerSharper/Datafixers/Dynamic.cs:69-92 | a failed state ignores the pair; a non-string key records GetString's failure; the target key gets the new value; every other pair is copied |
| Dynamics.MapTransformState.constructor | WhiteTowerGames.DataFixerSharper/Datafixers/Dynamic.cs:95-103 | a fresh state holds the empty map, no key found, and a success |
| Dynamics.Accept | WhiteTowerGames.DataFixerSharper/Datafixers/Dynamic.cs:69-92 | the consumer updates the state as Step says |
| Dynamics.SetSpec | WhiteTowerGames.DataFixerSharper/Datafixers/Dynamic.cs:25-54 | a non-map fails with ReadMap's message; a failure carries no partial; a success keeps the receiver's ops |
| Dynamics.Set | WhiteTowerGames.DataFixerSharper/Datafixers/Dynamic.cs:25-54 | the method computes SetSpec |
| Dynamics.Replaced | WhiteTowerGames.DataFixerSharper/Datafixers/Dynamic.cs:81-91 | one pair per pair, with the same keys |
| Dynamics.TransformAllIsAddAll | WhiteTowerGames.DataFixerSharper/Datafixers/Dynamic.cs:81-91 | when every key is a string, the rebuilt map is the pairs with the target's value replaced, added in order |
| Dynamics.TransformAllFindsTarget | WhiteTowerGames.DataFixerSharper/Datafixers/Dynamic.cs:84-88 | the key-found flag is set iff the target key occurs |
| Dynamics.SetReplacesOrAppends | WhiteTowerGames.DataFixerSharper/Datafixers/Dynamic.cs:39-53 | Set replaces every pair with the target key, or appends (key, value) after all pairs when none has it |
| Dynamics.SetFailsOnNonStringKey | WhiteTowerGames.DataFixerSharper/Datafixers/Dynamic.cs:39-79 | a map key that GetString rejects makes Set fail; when no earlier pair failed, the failure carries GetString's message |
| Dynamics.TransformStaysFailed | WhiteTowerGames.DataFixerSharper/Datafixers/Dynamic.cs:71-72 | once an error is recorded, later pairs change nothing |
| DynamicResults.DynamicResult.Get | WhiteTowerGames.DataFixerSharper/Datafixers/DynamicResult.cs:17-23 | an error is returned unchanged; otherwise Dynamic.Get |
| DynamicResults.DynamicResult.Set | WhiteTowerGames.DataFixerSharper/Datafixers/DynamicResult.cs:28-36 | the receiver's error first, then the value's error, else Dynamic.Set |
| DynamicResults.DynamicResult.SetOptional | WhiteTowerGames.DataFixerSharper/Datafixers/DynamicResult.cs:41-47 | the receiver unchanged when either failed, else Dynamic.Set |
| DynamicResults.DynamicResult.GetOrElse | WhiteTowerGames.DataFixerSharper/Datafixers/DynamicResult.cs:49-50 | the value, or the default only on an error |
| DynamicResults.DynamicResult.GetOrThrow | WhiteTowerGames.DataFixerSharper/Datafixers/DynamicResult.cs:52-53 | defined only when the wrapped result is valid (an invalid one throws), where it returns the wrapped value |
| DynamicResults.DynamicResult.IsError | WhiteTowerGames.DataFixerSharper/Datafixers/DynamicResult.cs:63 | invalid exactly when the wrapped result is an error |
| DynamicResults.DynamicResult.ErrorMessage | WhiteTowerGames.DataFixerSharper/Datafixers/DynamicResult.cs:64 | the wrapped result's message, "Success!" for a valid one |
| DynamicResults.DynamicResult.Map | WhiteTowerGames.DataFixerSharper/Datafixers/DynamicResult.cs:55-56 | the mapped value, or an error with the same message |
| DynamicResults.FromDynamic | WhiteTowerGames.DataFixerSharper/Datafixers/DynamicResult.cs:58-61 | wrapping a Dynamic gives a success holding it |
| DynamicResults.FailureSticks | WhiteTowerGames.DataFixerSharper/Datafixers/DynamicResult.cs:17-47 | a chain of Get, Set and SetOptional on an error returns that error |
| DynamicResults.SetAndSetOptional | WhiteTowerGames.DataFixerSharper/Datafixers/DynamicResult.cs:28-47 | Set and SetOptional agree on a successful value and differ exactly on a failed one |
| DataFixers.LessIsStrictTotal | WhiteTowerGames.DataFixerSharper/Datafixers/DataFixer.cs:7 | the version order the sorted registry uses is a strict total order |
| DataFixers.VersionStrings | WhiteTowerGames.DataFixerSharper/Datafixers/DataFixer.cs:37 | every version prints as two components, plus the build when it is defined, plus the revision when that is defined too; the printed text parses back to the same version |
| DataFixers.RegisterVersions | WhiteTowerGames.DataFixerSharper/Datafixers/DataFixer.cs:9-13 | registering keeps every version after a bound that was after all old versions and the new one |
| DataFixers.RegisterWellFormed | WhiteTowerGames.DataFixerSharper/Datafixers/DataFixer.cs:9-13 | registering keeps the registry sorted, duplicate-free and each fix under its own version |
| DataFixers.TailWellFormed | WhiteTowerGames.DataFixerSharper/Datafixers/DataFixer.cs:7 | the registry after its first version is well formed and comes later |
| DataFixers.NoFixesBefore | WhiteTowerGames.DataFixerSharper/Datafixers/DataFixer.cs:7 | a version before every registered one has no fixes |
| DataFixers.RegisterAppends | WhiteTowerGames.DataFixerSharper/Datafixers/DataFixer.cs:11-12 | the fix is appended to its version's list, created on first use; no other version changes |
| DataFixers.ApplyFixes | WhiteTowerGames.DataFixerSharper/Datafixers/DataFixer.cs:32-41 | a failure, "Could not migrate data to version …", carries no partial |
| DataFixers.MigrateFrom | WhiteTowerGames.DataFixerSharper/Datafixers/DataFixer.cs:24-42 | a failure carries no partial |
| DataFixers.DataFixer.constructor | WhiteTowerGames.DataFixerSharper/Datafixers/DataFixer.cs:7 | the registry starts empty |
| DataFixers.DataFixer.RegisterDatafix | WhiteTowerGames.DataFixerSharper/Datafixers/DataFixer.cs:9-13 | keeps the registry well formed; the fix is appended to its version's list and no other list changes |
| DataFixers.DataFixer.Migrate | WhiteTowerGames.DataFixerSharper/Datafixers/DataFixer.cs:15-45 | the nested loop computes the migration function |
| DataFixers.ApplyAllAppend | WhiteTowerGames.DataFixerSharper/Datafixers/DataFixer.cs:32-41 | running two runs of fixes is running the first, then, unless it failed, the second |
| DataFixers.ApplyFixesIsApplyAll | WhiteTowerGames.DataFixerSharper/Datafixers/DataFixer.cs:32-41 | one version's fixes run in registration order, each on the previous output |
| DataFixers.NothingInRangeAfter | WhiteTowerGames.DataFixerSharper/Datafixers/DataFixer.cs:29-30 | when the first version is above the upper bound, nothing is in range |
| DataFixers.MigrateAppliesRange | WhiteTowerGames.DataFixerSharper/Datafixers/DataFixer.cs:24-42 | migration runs exactly the fixes whose version lies in the inclusive range, in version then registration order, stopping at the first failure |
| DataFixers.MigrateOutsideRangeIsIdentity | WhiteTowerGames.DataFixerSharper/Datafixers/DataFixer.cs:23-44 | with no fixes in range the input data is returned |
| JsonBytes.ByteWriter.constructor | WhiteTowerGames.DataFixerSharper/Json/JsonOps.cs:125 | a fresh writer has written nothing |
| JsonBytes.ByteWriter.Write | WhiteTowerGames.DataFixerSharper/Json/JsonOps.cs:142-144 | appends the bytes to what was written |
| JsonBytes.BufferConstructors | WhiteTowerGames.DataFixerSharper/Json/JsonByteBuffer.cs:13-34 | a memory buffer has no writer and hands out its memory; a writer buffer has empty memory; IsEmpty iff no memory and no writer |
| JsonBytes.Empty | WhiteTowerGames.DataFixerSharper/Json/JsonOps.cs:18-24 | the bytes "{}", counted as empty JSON |
| JsonBytes.CreateBool | WhiteTowerGames.DataFixerSharper/Json/JsonOps.cs:20-21 | the bytes "true" or "false" |
| JsonBytes.EmptyJsonShapes | WhiteTowerGames.DataFixerSharper/Json/JsonOps.cs:289-314 | empty JSON with memory is exactly "{}" or "[]"; a writer-backed buffer is never empty JSON |
| JsonBytes.RemoveFromInput | WhiteTowerGames.DataFixerSharper/Json/JsonOps.cs:286 | returns its input unchanged |
| JsonBytes.CreateEmptyList | WhiteTowerGames.DataFixerSharper/Json/JsonOps.cs:123-128 | a fresh writer holding only "[" |
| JsonBytes.CreateEmptyMap | WhiteTowerGames.DataFixerSharper/Json/JsonOps.cs:180-185 | a fresh writer holding only "{" |
| JsonBytes.AddToList | WhiteTowerGames.DataFixerSharper/Json/JsonOps.cs:131-148 | fails without a writer; otherwise writes "," unless the last byte is "[", then the element, and returns the same buffer |
| JsonBytes.AddToMap | WhiteTowerGames.DataFixerSharper/Json/JsonOps.cs:188-208 | fails without a writer; otherwise writes "," unless the last byte is "{", then key ":" value |
| JsonBytes.Finalized | WhiteTowerGames.DataFixerSharper/Json/JsonOps.cs:258-268 | closing a value leaves a memory buffer |
| JsonBytes.Merged | WhiteTowerGames.DataFixerSharper/Json/JsonOps.cs:317-363 | the merge of two enclosed texts has length \|left\| + \|right\| − 1 |
| JsonBytes.MergeEnclosed | WhiteTowerGames.DataFixerSharper/Json/JsonOps.cs:325-338 | fills a fresh array with open, left's inner bytes, ",", right's inner bytes, close |
| JsonBytes.MergeArrays | WhiteTowerGames.DataFixerSharper/Json/JsonOps.cs:317-339 | the other side when one side is empty JSON; otherwise the bracketed merge |
| JsonBytes.MergeObjects | WhiteTowerGames.DataFixerSharper/Json/JsonOps.cs:342-363 | the same with braces |
| JsonBytes.AppendToPrefix | WhiteTowerGames.DataFixerSharper/Json/JsonOps.cs:254-283 | closes a writer-backed value with the bracket matching its first byte; then the value if the prefix is empty, the prefix if the value is, a merge of two arrays or two objects, else the value |
| JsonBytes.AppendIdentities | WhiteTowerGames.DataFixerSharper.Tests/DynamicOps/OpsMutation.cs:12-36 | an empty prefix gives the value, an empty value the prefix; Empty() is a left identity |
| JsonBytes.MemberTextSplits | WhiteTowerGames.DataFixerSharper/Json/JsonOps.cs:188-208 | each member's text is its key, a colon and its value, and splits back into the two at that colon |
| JsonBytes.JoinAppend | WhiteTowerGames.DataFixerSharper/Json/JsonOps.cs:131-148 | joining two runs of parts is joining each with a separator between |
| JsonBytes.JoinLast | WhiteTowerGames.DataFixerSharper/Json/JsonOps.cs:141 | the joined text ends with the last part's last byte |
| JsonBytes.MergedArrays | WhiteTowerGames.DataFixerSharper/Json/JsonOps.cs:317-339 | merging two array texts gives the array of all their elements |
| JsonBytes.MergedObjects | WhiteTowerGames.DataFixerSharper/Json/JsonOps.cs:342-363 | merging two object texts gives the object of all their members |
| JsonBytes.ListAdditionExtends | WhiteTowerGames.DataFixerSharper/Json/JsonOps.cs:131-148 | adding an element to an open list's bytes gives the open list with one more element |
| JsonBytes.ClosedList | WhiteTowerGames.DataFixerSharper/Json/JsonOps.cs:262-263 | closing an open list gives the array text of its elements |
| JsonBytes.MapAdditionExtends | WhiteTowerGames.DataFixerSharper/Json/JsonOps.cs:188-208 | adding a member to an open map's bytes gives the open map with one more member |
| JsonBytes.ClosedMap | WhiteTowerGames.DataFixerSharper/Json/JsonOps.cs:264-265 | closing an open map gives the object text of its members |
| JsonBytes.ArrayTextEmpty | WhiteTowerGames.DataFixerSharper/Json/JsonOps.cs:298 | an array text is "[]" iff it has no elements, and is never "{}" |
| JsonBytes.ObjectTextEmpty | WhiteTowerGames.DataFixerSharper/Json/JsonOps.cs:296 | an object text is "{}" iff it has no members, and is never "[]" |
| JsonBytes.AppendArrays | WhiteTowerGames.DataFixerSharper/Json/JsonOps.cs:276-277 | appending two array texts gives the array of all elements |
| JsonBytes.AppendObjects | WhiteTowerGames.DataFixerSharper/Json/JsonOps.cs:279-280 | appending two object texts gives the object of all members |
| JsonBytes.AppendMismatchedShapes | WhiteTowerGames.DataFixerSharper/Json/JsonOps.cs:282 | an array appended to an object, or the reverse, gives the value |
| JsonNodes.GetNumber | WhiteTowerGames.DataFixerSharper/JsonOps.cs:25-31 | a number node's value, else a failure with partial 0 |
| JsonNodes.GetString | WhiteTowerGames.DataFixerSharper/JsonOps.cs:33-39 | a string node's text, else a failure |
| JsonNodes.GetBool | WhiteTowerGames.DataFixerSharper/JsonOps.cs:41-47 | a bool node's value, else a failure with partial false |
| JsonNodes.ReadAsStream | WhiteTowerGames.DataFixerSharper/JsonOps.cs:58-64 | an array's elements in order, else a failure |
| JsonNodes.ReadAsMap | WhiteTowerGames.DataFixerSharper/JsonOps.cs:76-89 | an object's members in order with string-node keys; anything else fails with "Expected JSON map" and no partial |
| JsonNodes.StringKeyedReadsBack | WhiteTowerGames.DataFixerSharper/JsonOps.cs:76-89 | pairs keyed by string nodes, stored as an object under their keys' text, are read back by ReadAsMap as the same pairs, in order |
| JsonNodes.Merge | WhiteTowerGames.DataFixerSharper/JsonOps.cs:91-100 | a one-entry object; a non-string key is outside the precondition (the source throws) |
| JsonNodes.MergeAndAppend | WhiteTowerGames.DataFixerSharper/JsonOps.cs:102-105 | always an object: the one-entry object for the key and value appended to the map; `MergeAndAppendStores` states which keys it then holds |
| JsonNodes.Empty | WhiteTowerGames.DataFixerSharper/JsonOps.cs:15-17 | the string value "{}", which AppendToPrefix treats as no value (`AppendIdentities`) |
| JsonNodes.CreateList | WhiteTowerGames.DataFixerSharper/JsonOps.cs:49-56 | an array holding the elements in order, which ReadAsStream reads back |
| JsonNodes.CreateMap | WhiteTowerGames.DataFixerSharper/JsonOps.cs:66-74 | the loop builds the object that writing each pair in turn gives |
| JsonNodes.AppendToPrefix | WhiteTowerGames.DataFixerSharper/JsonOps.cs:107-126 | returns the appended value and the prefix as the in-place write leaves it |
| JsonNodes.RemoveFromInput | WhiteTowerGames.DataFixerSharper/JsonOps.cs:128-137 | the loop computes the removal |
| JsonNodes.AppendIdentities | WhiteTowerGames.DataFixerSharper/JsonOps.cs:109-113 | the sentinel or an empty object as value gives the prefix; the sentinel as prefix gives the value |
| JsonNodes.AppendObjects | WhiteTowerGames.DataFixerSharper/JsonOps.cs:115-121 | two objects: every key of the value overwrites, keys only in the prefix survive, and the mutated prefix is returned |
| JsonNodes.AppendOtherShapes | WhiteTowerGames.DataFixerSharper/JsonOps.cs:123 | any other combination returns the value and leaves the prefix alone |
| JsonNodes.MergeAndAppendStores | WhiteTowerGames.DataFixerSharper/JsonOps.cs:102-105 | MergeAndAppend onto an object stores the value under the key and keeps the others |
| JsonNodes.CreateMapLastWins | WhiteTowerGames.DataFixerSharper/JsonOps.cs:66-74 | a repeated key keeps its last value |
| JsonNodes.CreateMapDistinct | WhiteTowerGames.DataFixerSharper/JsonOps.cs:66-74 | with distinct keys the object holds the pairs in order |
| JsonNodes.RemoveFromObject | WhiteTowerGames.DataFixerSharper/JsonOps.cs:128-137 | every key of the value is gone from the input, every other key keeps its value |
| JsonNodes.RemoveFromNonObjects | WhiteTowerGames.DataFixerSharper/JsonOps.cs:128-137 | unless both are objects, the input is returned untouched |
| JsonNodes.GetValue | WhiteTowerGames.DataFixerSharper/Abstractions/IDynamicOps.cs:16 | a present key of an object gives its value; anything else fails |
| JsonNodes.DomOps | WhiteTowerGames.DataFixerSharper/JsonOps.cs:15-17 | the node backend's ops, whose Empty is the sentinel |
| JsonNodes.DomPrimitivesRoundTrip | WhiteTowerGames.DataFixerSharper/JsonOps.cs:19-47 | numbers, strings and bools read back from the nodes created for them |
| JsonNodes.DomStreamLaw | WhiteTowerGames.DataFixerSharper/JsonOps.cs:49-64 | ReadAsStream reads back CreateList |
| JsonNodes.DomMapLaw | WhiteTowerGames.DataFixerSharper/JsonOps.cs:66-89 | a non-empty map appended to Empty reads back its pairs; an empty one becomes the sentinel and does not read back |
| JsonNodes.ReadAsMapIntended | WhiteTowerGames.DataFixerSharper/JsonOps.cs:76-89 | the intended ReadAsMap reads the sentinel as the empty map |
| JsonNodes.DomMapLawIntended | WhiteTowerGames.DataFixerSharper/JsonOps.cs:66-113 | with it, every map of distinct string keys reads back |
| Scenarios.DomBuiltinsRoundTrip | WhiteTowerGames.DataFixerSharper.Tests/Primitives/PrimitiveCodecs.cs:11-93 | the builtin codecs round-trip every value on the node backend |
| Scenarios.AppendEmptyToNumber | WhiteTowerGames.DataFixerSharper.Tests/DynamicOps/OpsMutation.cs:12-36 | appending Empty to a number, or a number to Empty, gives the number |
| Scenarios.ConstantOnBytes | WhiteTowerGames.DataFixerSharper.Tests/Primitives/PrimitiveCodecs.cs:95-107 | on the byte backend Constant(42) encodes any value to "{}", which parses to 42 |
| Scenarios.NameFieldEncoding | WhiteTowerGames.DataFixerSharper.Tests/Composition/CodecBuilding.cs:10-40 | the Name field writes {"Name": name} |
| Scenarios.AgeFieldEncoding | WhiteTowerGames.DataFixerSharper.Tests/Composition/CodecBuilding.cs:10-40 | the Age field adds "Age" to that object |
| Scenarios.AgeWrittenAfterName | WhiteTowerGames.DataFixerSharper/JsonOps.cs:102-113 | writing "Age" in place into {"Name": …} appends it after the name |
| Scenarios.OptionalInt32Encoding | WhiteTowerGames.DataFixerSharper/Codecs/RecordCodec/FieldCodecs.cs:98-111 | an optional int field always encodes; as written it returns the prefix after the in-place write, as intended the merged map |
| Scenarios.PersonRecordEncoding | WhiteTowerGames.DataFixerSharper.Tests/Composition/CodecBuilding.cs:10-40 | a Person encodes to {"Name": …, "Age": …} |
| Scenarios.PersonFieldsStored | WhiteTowerGames.DataFixerSharper.Tests/Composition/CodecBuilding.cs:10-40 | each field can be read back from the object |
| Scenarios.PersonRoundTrips | WhiteTowerGames.DataFixerSharper.Tests/Composition/CodecBuilding.cs:28-40 | every Person, including one with the default age, round-trips |
| Scenarios.PersonRoundTripsOn | WhiteTowerGames.DataFixerSharper.Tests/Composition/CodecBuilding.cs:28-40 | the same on any node backend with the same ops on strings, numbers and objects |
| Scenarios.OptionalFirstFieldIsLost | WhiteTowerGames.DataFixerSharper/Codecs/RecordCodec/FieldCodecs.cs:108-110 | a record whose first field is optional encodes to the sentinel and reads back only age 0 |
| Scenarios.OptionalFieldIntendedReadsBack | WhiteTowerGames.DataFixerSharper/Codecs/RecordCodec/FieldCodecs.cs:98-111 | the intended optional encode writes {"Age": n}, which decodes to n |
| Scenarios.OptionalAgeEncoding | WhiteTowerGames.DataFixerSharper/Codecs/RecordCodec/FieldCodecs.cs:98-111 | the intended optional encode of an age into the empty map gives {"Age": n} |
| Scenarios.OptionalAgeDecoding | WhiteTowerGames.DataFixerSharper/Codecs/RecordCodec/FieldCodecs.cs:86-96 | the optional Age field decodes {"Age": n} to n |
| Scenarios.IntsRoundTripAsEnumerable | WhiteTowerGames.DataFixerSharper.Tests/Collections/CollectionCodecs.cs:7-21 | every sequence of ints, [1, 2, 3] and [] included, round-trips through the enumerable codec |
| Scenarios.BuiltListIsArray | WhiteTowerGames.DataFixerSharper/Codecs/ListCodec.cs:40-50 | on a node backend the list the loop builds is the array of the encodings |
| Scenarios.DomBuiltList | WhiteTowerGames.DataFixerSharper/Codecs/ListCodec.cs:40-50 | the same on DomOps |
| Scenarios.ListCodecLosesElements | WhiteTowerGames.DataFixerSharper/Codecs/ListCodec.cs:52-53 | `Int32.ForList()` encodes every sequence to the sentinel, which does not decode: no sequence round-trips |
| Scenarios.ListIntendedRoundTripsOnDom | WhiteTowerGames.DataFixerSharper/Codecs/ListCodec.cs:33-54 | the intended list codec round-trips every int sequence |
| Scenarios.DictionaryRoundTripsOnDom | WhiteTowerGames.DataFixerSharper/Codecs/DictionaryCodec.cs:17-85 | a non-empty string→int dictionary with distinct keys round-trips |
| Scenarios.NodeEntries | WhiteTowerGames.DataFixerSharper/Codecs/DictionaryCodec.cs:17-85 | on a backend that makes strings and numbers into string and number nodes, a dictionary's entries round-trip and encode to string-keyed pairs with distinct keys |
| Scenarios.EmptyDictionaryIsNotRead | WhiteTowerGames.DataFixerSharper/JsonOps.cs:76-81 | the empty dictionary encodes to the sentinel and does not round-trip |
| Scenarios.DictionaryRoundTripsIntended | WhiteTowerGames.DataFixerSharper/JsonOps.cs:76-113 | with the intended ReadAsMap every such dictionary round-trips, the empty one included |

## Left out

- The byte backend's readers and writers that call the .NET JSON library are left out: GetNumber, GetString and GetBool, GetValue, ReadList and ReadMap (all `Utf8JsonReader`), CreateNumeric (`Utf8Formatter`) and CreateString (`JsonSerializer`). These are foreign calls. The byte backend is therefore modelled by its structural operations only. Every generic law is stated over an arbitrary `Ops<F>`, and the byte-backend scenario takes its ops as a parameter.
- The `ToJsonString`, `ToJsonDocument`, `ToJsonNode`, `ToJsonObject` and `ToJsonArray` conversions are left out: they are JSON parsing done by the library.
- Floating point is not modelled: `CreateFloat`/`CreateDouble`, `GetFloat`/`GetDouble`, `FloatCodec` and `DoubleCodec`. This also drops the float-based tests: the Vector3 mapper test, and the Circle/Rectangle polymorphism test on the byte backend. The generic laws `DispatchCodecs.DispatchRoundTrips`, `UpcastCodecs.UpcastRoundTrips` and `RecordCodecs.Record1RoundTrips`/`Record2RoundTrips` state what that test checks.
- Decimal is modelled as `real`, without .NET's 28-digit precision or its formatting.
- DynamicOps.GetInt8, GetInt16, GetInt32, GetInt64: the `OverflowException` of an out-of-range decimal→integer cast is a precondition, not a modelled exception.
- Results.Fail: when `Fail(message)` is called without a partial, the record keeps the value-type defaults that matter to the invariants (0, false, the unit value). For tuples, `Dynamic` and format values it records no partial, instead of a zero-filled struct. `Results.DataResult.Map` on an error with a partial always keeps `Some(converter(p))`. In the source, a converter that returns null leaves the new error without a partial, so the two differ for reference-typed results.
- FieldMappers.Fm1.Decode, MappedCodecs.SafeMapDecode, DynamicResults.DynamicResult.Map: on a failure, the source still runs the converter on the zero-filled default partial: the constructor for `Fm1`, `to` for the safe and unsafe-to-safe mapped codecs, and the mapper on a `Dynamic` whose ops are null. The model carries no partial there, so it never runs the converter on a failure. It therefore does not capture the exception the source throws when the converter dereferences that default value. Nor does it capture the `Fm1` exception when no constructor was set: `Fm1.Decodes` demands the constructor for every decode instead.
- System.Text.Json node internals are not modelled: parent ownership, `TryGetValue` and aliasing of nodes. Nodes are values. Leaving out parent ownership hides a failure. `AppendToPrefix` (JsonOps.cs:117-118) copies each member of the value object into the prefix while the value object still owns it, and System.Text.Json rejects a node that already has a parent. On the real node backend, a second field's MergeAndAppend would therefore throw. The node-backend successes of `Scenarios.AgeFieldEncoding`, `Scenarios.PersonRecordEncoding` and `Scenarios.PersonRoundTrips` hold only because of this omission. In-place writes into a prefix or an input are modelled by the extra "prefix after" and "input after" results the ops return.
- The first-generation ops the node backend lacks are supplied by `JsonNodes.DomOps`, as described above; they are not part of the source.
- JsonNodes.DomOps: AddToList and AddToMap, which the node backend lacks, fail on a non-array or non-object with the backend's not-an-array and not-a-map messages.
- `Instance.cs` and `RecordCodecBuilder.cs` are not modelled: they only forward to constructors (and hold two conflicting `Instance<T>` definitions). `WithFields`/`WithCtor` are modelled as direct construction of `RecordCodecN` and `FmN`.
- The interface-only files (`CollectionConsumers.cs`, `IListBuilder.cs`, `IRecordBuilder.cs`, `IDataFix.cs`) are function types or datatype fields here.
- The static `Instance` singletons and `MethodImpl` attributes are not modelled, and neither is the thread safety of the static registry: the model is one `DataFixer` object.
- `ref` state passing is not modelled as such. `ref` states are modelled as objects (`DecodeState`, `MapTransformState`) or as explicit accumulators threaded through loops.
- Boxing through `IDynamicOps<object>` in `BuiltinCodecs.cs` is not modelled: the builtins are generic in the format.
- The enum codecs are left out because they do not exist in the source (`BuiltinCodecs.cs:56` is a TODO), and the benchmarks are left out because they have no behaviour.
- ListCodecs.ListDecodeSpec: `ReadList` is modelled as handing the consumer the list's elements, so the only failure of ReadList itself is a non-list input.
- ListCodecs.BuildListIntended: an element's own Encode failure is stated through ListEncodeIntended and ListEncodeStopsAtFirstFailure, not in its own contract.
- DataFixers.ParseVersion: a reader of plain decimal version text, the partner of `VersionString`; System.Version.Parse's handling of whitespace, signs and overflow is not modelled.
- Dynamics.SetSpec: its own contract states only ReadMap's failure, that no failure carries a partial, and the ops. The consumer's failure on a key that is not a string is stated by Dynamics.SetFailsOnNonStringKey, and the new contents by Dynamics.SetReplacesOrAppends. A failing `AddToMap` is stated only through SetReplacesOrAppends, for maps whose keys are all strings.
- FieldMappers.Fm1.Encode, Fm2.Encode, Fm3.Encode, Fm4.Encode, Fm5.Encode and FieldMappers.Entry: the source calls `ops.MapBuilder()` and a field `Encode(input, ops, builder)` overload, and neither exists in the modelled interfaces. The model reconstructs them from `IRecordBuilder`: each field adds the entry (CreateString(name), EncodeStart of the getter's value) to a list, and `Build(list, prefix)` is an uninterpreted field of the ops. An optional field is added exactly like a required one; its default is not consulted.
- JsonBytes.AppendToPrefix: when neither side is empty JSON and the prefix is writer-backed (its memory is empty), the source indexes the prefix's first byte and throws. The model makes this a precondition (`CanAppend`) instead of a modelled exception.

## Findings

| source | as written | input that shows it | evidently intended | confidence | as-written member | corrected member |
|---|---|---|---|---|---|---|
| WhiteTowerGames.DataFixerSharper/Abstractions/DataResult.cs:69-76 | `SuccessResult.Evaluate` calls `errorFunc(this)` and never `successFunc` | `Success(v)` for any v | a success goes to `successFunc(value)` | high (not executed) | Results.EvaluateSuccessCallsErrorFunc | Results.EvaluateIntended |
| WhiteTowerGames.DataFixerSharper/Codecs/ListCodec.cs:52-53 | Encode returns `Success(prefix)` and discards `AppendToPrefix`'s result | `Int32.ForList()` on [1, 2, 3] over the node backend encodes to the sentinel, which does not decode | return the appended value | high (not executed) | Scenarios.ListCodecLosesElements | ListCodecs.ListIntendedRoundTrips |
| WhiteTowerGames.DataFixerSharper/Codecs/ListCodec.cs:46-48 | the guard after `AddToList` tests `list.IsError`, which `GetOrThrow` has just excluded, so an `AddToList` failure is never returned | any backend whose `AddToList` fails on the last element; neither shipped backend does once `CreateEmptyList` has made a writer | test `appendedValue.IsError` | low (not executed) | ListCodecs.AddFailureIsNotReturned | ListCodecs.AddFailureIsReturnedIntended |
| WhiteTowerGames.DataFixerSharper/Codecs/RecordCodec/FieldCodecs.cs:108-110 | `OptionalFieldCodec.Encode` returns the prefix and drops `MergeAndAppend`'s result; when the prefix is the record's fresh empty map, the field is lost | a record whose only field is `OptionalField(Int32, "Age", 0)`, on Aged(5): encodes to the sentinel and reads back 0 | return the merged value | high (not executed) | Scenarios.OptionalFirstFieldIsLost | Scenarios.OptionalFieldIntendedReadsBack |
| WhiteTowerGames.DataFixerSharper/JsonOps.cs:76-81 | `ReadAsMap` rejects the sentinel, which is what `AppendToPrefix` returns for an empty map (lines 109-113) | the empty dictionary through `Codec.Dictionary(String, Int32)` on the node backend fails with "Input was not a valid dictionary/map." | read the sentinel as the empty map | medium (not executed) | Scenarios.EmptyDictionaryIsNotRead | Scenarios.DictionaryRoundTripsIntended |
