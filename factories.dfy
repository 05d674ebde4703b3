/**
 * The factory members of Codec and Codec<T> (Codecs/Codec.cs) and the Upcast
 * extension: each builds one combinator from its arguments. The mapping
 * factories take `from` before `to`, the opposite of the combinators.
 */
module CodecFactories {
  import opened Results
  import opened DynamicOps
  import opened Codecs
  import opened MappedCodecs
  import opened EitherCodecs
  import opened ConstantCodecs
  import opened UpcastCodecs
  import opened DispatchCodecs
  import opened ListCodecs
  import opened DictionaryCodecs
  import opened Dicts

  function ForList<T, F>(c: Codec<T, F>): (r: Codec<seq<T>, F>)
    ensures r == ListCodec(c)
  {
    ListCodec(c)
  }

  function SafeMap<A, B, F>(c: Codec<A, F>, from: B -> A, to: A -> B): (r: Codec<B, F>)
    ensures r == SafeMapCodec(c, to, from)
  {
    SafeMapCodec(c, to, from)
  }

  function UnsafeMap<A, B, F>(c: Codec<A, F>, from: B -> DataResult<A>, to: A -> DataResult<B>): (r: Codec<B, F>)
    ensures r == UnsafeMapCodec(c, to, from)
  {
    UnsafeMapCodec(c, to, from)
  }

  function Safe2UnsafeMap<A, B, F>(c: Codec<A, F>, from: B -> DataResult<A>, to: A -> B): (r: Codec<B, F>)
    ensures r == Safe2UnsafeMapCodec(c, to, from)
  {
    Safe2UnsafeMapCodec(c, to, from)
  }

  function Unsafe2SafeMap<A, B, F>(c: Codec<A, F>, from: B -> A, to: A -> DataResult<B>): (r: Codec<B, F>)
    ensures r == Unsafe2SafeMapCodec(c, to, from)
  {
    Unsafe2SafeMapCodec(c, to, from)
  }

  function Either<T, F>(first: Codec<T, F>, second: Codec<T, F>): (r: Codec<T, F>)
    ensures r == EitherCodec(first, second)
  {
    EitherCodec(first, second)
  }

  /** `Constant` is an instance member whose receiver plays no part. */
  function Constant<T, F>(receiver: Codec<T, F>, value: T): (r: Codec<T, F>)
    ensures r == ConstantCodec(value)
  {
    ConstantCodec(value)
  }

  function Dictionary<K(==), V, F>(keyCodec: Codec<K, F>, valueCodec: Codec<V, F>): (r: Codec<Dict<K, V>, F>)
    ensures r == DictionaryCodec(keyCodec, valueCodec)
  {
    DictionaryCodec(keyCodec, valueCodec)
  }

  /** `Dispatch`: the discriminator is stored under "type" unless a key name is given. */
  function Dispatch<B, D, F>(discriminatorCodec: Codec<D, F>, discriminatorGetter: B -> D, codecGetter: D --> Codec<B, F>,
                             discriminatorKeyName: string := "type"): (r: Codec<B, F>)
    ensures r == DispatchCodec(Dispatcher(discriminatorGetter, discriminatorCodec, codecGetter, discriminatorKeyName))
  {
    DispatchCodec(Dispatcher(discriminatorGetter, discriminatorCodec, codecGetter, discriminatorKeyName))
  }

  function Upcast<B, D, F>(c: Codec<D, F>, up: D -> B, down: B -> Option<D>, derName: string, runtimeName: B -> string): (r: Codec<B, F>)
    ensures r == UpcastCodec(c, up, down, derName, runtimeName)
  {
    UpcastCodec(c, up, down, derName, runtimeName)
  }

  /** `SafeMap(from, to)` round-trips `x` when `to` undoes `from`: the arguments reach the codec swapped into place. */
  lemma SafeMapFactoryRoundTrips<A, B, F>(c: Codec<A, F>, from: B -> A, to: A -> B, ops: Ops<F>, x: B)
    requires RoundTrips(c, ops, from(x)) && to(from(x)) == x
    ensures RoundTrips(SafeMap(c, from, to), ops, x)
  {
    SafeMapRoundTrips(c, to, from, ops, x);
  }

  /** The same for the fully fallible mapping. */
  lemma UnsafeMapFactoryRoundTrips<A, B, F>(c: Codec<A, F>, from: B -> DataResult<A>, to: A -> DataResult<B>, ops: Ops<F>, x: B)
    requires from(x).Success? && RoundTrips(c, ops, from(x).value) && to(from(x).value) == Success(x)
    ensures RoundTrips(UnsafeMap(c, from, to), ops, x)
  {
    UnsafeMapRoundTrips(c, to, from, ops, x);
  }

  /** The same for the mapping whose `from` may fail. */
  lemma Safe2UnsafeMapFactoryRoundTrips<A, B, F>(c: Codec<A, F>, from: B -> DataResult<A>, to: A -> B, ops: Ops<F>, x: B)
    requires from(x).Success? && RoundTrips(c, ops, from(x).value) && to(from(x).value) == x
    ensures RoundTrips(Safe2UnsafeMap(c, from, to), ops, x)
  {
    Safe2UnsafeMapRoundTrips(c, to, from, ops, x);
  }

  /** The same for the mapping whose `to` may fail. */
  lemma Unsafe2SafeMapFactoryRoundTrips<A, B, F>(c: Codec<A, F>, from: B -> A, to: A -> DataResult<B>, ops: Ops<F>, x: B)
    requires RoundTrips(c, ops, from(x)) && to(from(x)) == Success(x)
    ensures RoundTrips(Unsafe2SafeMap(c, from, to), ops, x)
  {
    Unsafe2SafeMapRoundTrips(c, to, from, ops, x);
  }

  /** Without a key name, a dispatched value missing "type" fails naming "type". */
  lemma DispatchDefaultsToTypeKey<B, D, F>(discriminatorCodec: Codec<D, F>, discriminatorGetter: B -> D, codecGetter: D --> Codec<B, F>,
                                           ops: Ops<F>, input: F)
    requires ops.getValue(input, "type").Error?
    ensures Dispatch(discriminatorCodec, discriminatorGetter, codecGetter).decode.requires(ops, input)
    ensures Dispatch(discriminatorCodec, discriminatorGetter, codecGetter).decode(ops, input)
      == Error(MissingDiscriminator("type", ops.getValue(input, "type").message), None)
  {
  }
}
