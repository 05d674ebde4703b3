/**
 * DictionaryCodec<TKey, TValue> (Codecs/DictionaryCodec.cs): a map codec over
 * ReadAsMap / CreateMap. A .NET Dictionary is modelled as the sequence of its
 * entries in enumeration order (insertion order, since nothing is ever
 * removed), with distinct keys; `dict[key] = value` replaces the value of an
 * existing key in place and appends a new key at the end.
 */
module DictionaryCodecs {
  import opened Results
  import opened DynamicOps
  import opened Codecs
  import opened EnumerableCodecs
  import opened Dicts

  // ---------------------------------------------------------------- decoding

  function KeyFailure(message: string): string { "Failed to decode key [" + message + "]" }
  function ValueFailure(message: string): string { "Failed to decode value [" + message + "]" }

  /**
   * The dictionary loop over the pairs ReadAsMap gave, left to right. A key or
   * value failure stops it, with the dictionary built so far and the input as
   * the partial; `RemoveFromInput(input, key)` is applied after each pair.
   */
  function DecodePairs<K(==), V, F>(kc: Codec<K, F>, vc: Codec<V, F>, ops: Ops<F>, input: F, pairs: seq<(F, F)>): DataResult<(Dict<K, V>, F)>
    requires PairsDecodeUntilFailure(kc, vc, ops, input, pairs)
    decreases |pairs|, 1
  {
    if |pairs| == 0 then Success(([], input))
    else
      var init := DecodePairs(kc, vc, ops, input, pairs[..|pairs| - 1]);
      if init.Error? then init
      else
        var (dict, rest) := init.value;
        var (key, value) := pairs[|pairs| - 1];
        var decodedKey := kc.decode(ops, key);
        if decodedKey.Error? then Fail(KeyFailure(decodedKey.message), Some((dict, rest)))
        else
          var decodedVal := vc.decode(ops, value);
          if decodedVal.Error? then Fail(ValueFailure(decodedVal.message), Some((dict, rest)))
          else Success((Put(dict, decodedKey.value.0, decodedVal.value.0), ops.removeValue(rest, key)))
  }

  ghost predicate PairsDecodeUntilFailure<K, V, F>(kc: Codec<K, F>, vc: Codec<V, F>, ops: Ops<F>, input: F, pairs: seq<(F, F)>)
    decreases |pairs|, 0
  {
    |pairs| == 0
    || (PairsDecodeUntilFailure(kc, vc, ops, input, pairs[..|pairs| - 1])
        && (DecodePairs(kc, vc, ops, input, pairs[..|pairs| - 1]).Success? ==>
              kc.decode.requires(ops, pairs[|pairs| - 1].0)
              && (kc.decode(ops, pairs[|pairs| - 1].0).Success? ==> vc.decode.requires(ops, pairs[|pairs| - 1].1))))
  }

  ghost predicate DictionaryDecodes<K, V, F>(kc: Codec<K, F>, vc: Codec<V, F>, ops: Ops<F>, input: F)
  {
    ops.readAsMap(input).Success? ==> PairsDecodeUntilFailure(kc, vc, ops, input, ops.readAsMap(input).value)
  }

  /** `Decode`: ReadAsMap's failure is a fixed message; otherwise the pair loop. */
  function DictionaryDecodeSpec<K(==), V, F>(kc: Codec<K, F>, vc: Codec<V, F>, ops: Ops<F>, input: F): (r: DataResult<(Dict<K, V>, F)>)
    requires DictionaryDecodes(kc, vc, ops, input)
    ensures ops.readAsMap(input).Error? ==> r == Error("Input was not a valid dictionary/map.", None)
    ensures ops.readAsMap(input).Success? ==> r == DecodePairs(kc, vc, ops, input, ops.readAsMap(input).value)
  {
    match ops.readAsMap(input)
    case Error(_, _) => Fail("Input was not a valid dictionary/map.", None)
    case Success(pairs) => DecodePairs(kc, vc, ops, input, pairs)
  }

  /** The loop keeps the keys distinct, and its failures always carry a partial with distinct keys. */
  lemma {:induction false} DecodePairsDistinct<K, V, F>(kc: Codec<K, F>, vc: Codec<V, F>, ops: Ops<F>, input: F, pairs: seq<(F, F)>)
    requires PairsDecodeUntilFailure(kc, vc, ops, input, pairs)
    ensures DecodePairs(kc, vc, ops, input, pairs).Success? ==> DistinctKeys(DecodePairs(kc, vc, ops, input, pairs).value.0)
    ensures DecodePairs(kc, vc, ops, input, pairs).Error? ==>
      DecodePairs(kc, vc, ops, input, pairs).partial.Some? && DistinctKeys(DecodePairs(kc, vc, ops, input, pairs).partial.value.0)
    decreases |pairs|
  {
    if |pairs| > 0 {
      var init := pairs[..|pairs| - 1];
      DecodePairsDistinct(kc, vc, ops, input, init);
      var prev := DecodePairs(kc, vc, ops, input, init);
      if prev.Success? {
        var key := kc.decode(ops, pairs[|pairs| - 1].0);
        if key.Success? && vc.decode(ops, pairs[|pairs| - 1].1).Success? {
          PutDistinct(prev.value.0, key.value.0, vc.decode(ops, pairs[|pairs| - 1].1).value.0);
        }
      }
    }
  }

  /**
   * For a repeated key the later pair wins: after a successful pair the
   * dictionary maps its key to its value and every other key as before.
   */
  lemma DecodePairsLaterWins<K, V, F>(kc: Codec<K, F>, vc: Codec<V, F>, ops: Ops<F>, input: F, pairs: seq<(F, F)>)
    requires |pairs| > 0 && PairsDecodeUntilFailure(kc, vc, ops, input, pairs)
    requires DecodePairs(kc, vc, ops, input, pairs).Success?
    ensures PairsDecodeUntilFailure(kc, vc, ops, input, pairs[..|pairs| - 1])
    ensures
      var before := DecodePairs(kc, vc, ops, input, pairs[..|pairs| - 1]);
      var after := DecodePairs(kc, vc, ops, input, pairs).value.0;
      var key := kc.decode(ops, pairs[|pairs| - 1].0).value.0;
      before.Success?
      && Lookup(after, key) == Some(vc.decode(ops, pairs[|pairs| - 1].1).value.0)
      && forall k2 | k2 != key :: Lookup(after, k2) == Lookup(before.value.0, k2)
  {
    var before := DecodePairs(kc, vc, ops, input, pairs[..|pairs| - 1]);
    PutLookup(before.value.0, kc.decode(ops, pairs[|pairs| - 1].0).value.0, vc.decode(ops, pairs[|pairs| - 1].1).value.0);
  }

  /** `DictionaryCodec.Decode`. */
  method DictionaryDecode<K(==), V, F>(kc: Codec<K, F>, vc: Codec<V, F>, ops: Ops<F>, input: F) returns (r: DataResult<(Dict<K, V>, F)>)
    requires DictionaryDecodes(kc, vc, ops, input)
    ensures r == DictionaryDecodeSpec(kc, vc, ops, input)
  {
    var mapResult := ops.readAsMap(input);
    if mapResult.Error? {
      return Fail("Input was not a valid dictionary/map.", None);
    }
    var pairs := mapResult.value;
    var dict: Dict<K, V> := [];
    var current := input;
    var i := 0;
    while i < |pairs|
      invariant 0 <= i <= |pairs|
      invariant PairsDecodeUntilFailure(kc, vc, ops, input, pairs[..i])
      invariant DecodePairs(kc, vc, ops, input, pairs[..i]) == Success((dict, current))
    {
      PrefixPairsDecode(kc, vc, ops, input, pairs, i + 1);
      assert pairs[..i + 1][..i] == pairs[..i];
      assert pairs[..i + 1][i] == pairs[i];
      var decodedKey := kc.decode(ops, pairs[i].0);
      if decodedKey.Error? {
        DecodePairsStaysFailed(kc, vc, ops, input, pairs, i + 1);
        assert pairs[..|pairs|] == pairs;
        return Fail(KeyFailure(decodedKey.ErrorMessage()), Some((dict, current)));
      }
      var decodedVal := vc.decode(ops, pairs[i].1);
      if decodedVal.Error? {
        DecodePairsStaysFailed(kc, vc, ops, input, pairs, i + 1);
        assert pairs[..|pairs|] == pairs;
        return Fail(ValueFailure(decodedVal.ErrorMessage()), Some((dict, current)));
      }
      var keyResult := decodedKey.GetOrThrow().0;
      var valResult := decodedVal.GetOrThrow().0;
      dict := Put(dict, keyResult, valResult);
      current := ops.removeValue(current, pairs[i].0);
      i := i + 1;
    }
    assert pairs[..i] == pairs;
    return Success((dict, current));
  }

  lemma {:induction false} PrefixPairsDecode<K, V, F>(kc: Codec<K, F>, vc: Codec<V, F>, ops: Ops<F>, input: F, pairs: seq<(F, F)>, k: nat)
    requires PairsDecodeUntilFailure(kc, vc, ops, input, pairs)
    requires k <= |pairs|
    ensures PairsDecodeUntilFailure(kc, vc, ops, input, pairs[..k])
    decreases |pairs| - k
  {
    if k < |pairs| {
      assert pairs[..|pairs| - 1][..k] == pairs[..k];
      PrefixPairsDecode(kc, vc, ops, input, pairs[..|pairs| - 1], k);
    } else {
      assert pairs[..k] == pairs;
    }
  }

  lemma {:induction false} DecodePairsStaysFailed<K, V, F>(kc: Codec<K, F>, vc: Codec<V, F>, ops: Ops<F>, input: F, pairs: seq<(F, F)>, k: nat)
    requires PairsDecodeUntilFailure(kc, vc, ops, input, pairs)
    requires 0 < k <= |pairs|
    requires PairsDecodeUntilFailure(kc, vc, ops, input, pairs[..k])
    requires DecodePairs(kc, vc, ops, input, pairs[..k]).Error?
    ensures DecodePairs(kc, vc, ops, input, pairs) == DecodePairs(kc, vc, ops, input, pairs[..k])
    decreases |pairs| - k
  {
    if k == |pairs| {
      assert pairs[..k] == pairs;
    } else {
      var init := pairs[..|pairs| - 1];
      assert init[..k] == pairs[..k];
      DecodePairsStaysFailed(kc, vc, ops, input, init, k);
    }
  }

  // ---------------------------------------------------------------- encoding

  function KeyEncodeFailure(message: string): string { "Failed to encode key [" + message + "]" }
  function ValueEncodeFailure(message: string): string { "Failed to encode value [" + message + "]" }

  /**
   * The encoded pairs in enumeration order; a failure carries, as its
   * partial, the pairs encoded before it.
   */
  function EncodePairs<K, V, F>(kc: Codec<K, F>, vc: Codec<V, F>, ops: Ops<F>, entries: Dict<K, V>): DataResult<seq<(F, F)>>
    requires PairsEncodeUntilFailure(kc, vc, ops, entries)
    decreases |entries|, 1
  {
    if |entries| == 0 then Success([])
    else
      var init := EncodePairs(kc, vc, ops, entries[..|entries| - 1]);
      if init.Error? then init
      else
        var (key, value) := entries[|entries| - 1];
        var encodedKey := kc.EncodeStart(ops, key);
        if encodedKey.Error? then Error(KeyEncodeFailure(encodedKey.message), Some(init.value))
        else
          var encodedValue := vc.EncodeStart(ops, value);
          if encodedValue.Error? then Error(ValueEncodeFailure(encodedValue.message), Some(init.value))
          else Success(init.value + [(encodedKey.value, encodedValue.value)])
  }

  ghost predicate PairsEncodeUntilFailure<K, V, F>(kc: Codec<K, F>, vc: Codec<V, F>, ops: Ops<F>, entries: Dict<K, V>)
    decreases |entries|, 0
  {
    |entries| == 0
    || (PairsEncodeUntilFailure(kc, vc, ops, entries[..|entries| - 1])
        && (EncodePairs(kc, vc, ops, entries[..|entries| - 1]).Success? ==>
              kc.encode.requires(entries[|entries| - 1].0, ops, ops.empty)
              && (kc.EncodeStart(ops, entries[|entries| - 1].0).Success? ==> vc.encode.requires(entries[|entries| - 1].1, ops, ops.empty))))
  }

  lemma {:induction false} EncodePairsFailureHasPartial<K, V, F>(kc: Codec<K, F>, vc: Codec<V, F>, ops: Ops<F>, entries: Dict<K, V>)
    requires PairsEncodeUntilFailure(kc, vc, ops, entries)
    ensures EncodePairs(kc, vc, ops, entries).Error? ==> EncodePairs(kc, vc, ops, entries).partial.Some?
    decreases |entries|
  {
    if |entries| > 0 {
      EncodePairsFailureHasPartial(kc, vc, ops, entries[..|entries| - 1]);
    }
  }

  ghost predicate DictionaryEncodes<K, V, F>(kc: Codec<K, F>, vc: Codec<V, F>, ops: Ops<F>, entries: Dict<K, V>)
  {
    PairsEncodeUntilFailure(kc, vc, ops, entries)
    && (var pairs := EncodePairs(kc, vc, ops, entries);
        if pairs.Success? then ops.createMap.requires(pairs.value)
        else pairs.partial.Some? && ops.createMap.requires(pairs.partial.value))
  }

  /**
   * `Encode`: a failure keeps its message and, as partial, CreateMap of the
   * pairs encoded before it; otherwise CreateMap of all pairs appended to the
   * prefix.
   */
  function DictionaryEncodeSpec<K, V, F>(kc: Codec<K, F>, vc: Codec<V, F>, ops: Ops<F>, entries: Dict<K, V>, prefix: F): (r: DataResult<F>)
    requires DictionaryEncodes(kc, vc, ops, entries)
    ensures EncodePairs(kc, vc, ops, entries).Success? ==>
      r == Success(ops.appendToPrefix(prefix, ops.createMap(EncodePairs(kc, vc, ops, entries).value)))
    ensures EncodePairs(kc, vc, ops, entries).Error? ==>
      r == Error(EncodePairs(kc, vc, ops, entries).message, Some(ops.createMap(EncodePairs(kc, vc, ops, entries).partial.value)))
  {
    var pairs := EncodePairs(kc, vc, ops, entries);
    if pairs.Error? then Fail(pairs.message, Some(ops.createMap(pairs.partial.value)))
    else Success(ops.appendToPrefix(prefix, ops.createMap(pairs.value)))
  }

  /** `DictionaryCodec.Encode`. */
  method DictionaryEncode<K, V, F>(kc: Codec<K, F>, vc: Codec<V, F>, ops: Ops<F>, input: Dict<K, V>, prefix: F) returns (r: DataResult<F>)
    requires DictionaryEncodes(kc, vc, ops, input)
    ensures r == DictionaryEncodeSpec(kc, vc, ops, input, prefix)
  {
    var encodedMap: seq<(F, F)> := [];
    var i := 0;
    while i < |input|
      invariant 0 <= i <= |input|
      invariant PairsEncodeUntilFailure(kc, vc, ops, input[..i])
      invariant EncodePairs(kc, vc, ops, input[..i]) == Success(encodedMap)
    {
      EncodePairsStep(kc, vc, ops, input, i);
      var encodedKey := kc.EncodeStart(ops, input[i].0);
      if encodedKey.Error? {
        EncodePairsStaysFailed(kc, vc, ops, input, i + 1);
        assert input[..|input|] == input;
        return Fail(KeyEncodeFailure(encodedKey.ErrorMessage()), Some(ops.createMap(encodedMap)));
      }
      var encodedValue := vc.EncodeStart(ops, input[i].1);
      if encodedValue.Error? {
        EncodePairsStaysFailed(kc, vc, ops, input, i + 1);
        assert input[..|input|] == input;
        return Fail(ValueEncodeFailure(encodedValue.ErrorMessage()), Some(ops.createMap(encodedMap)));
      }
      encodedMap := encodedMap + [(encodedKey.GetOrThrow(), encodedValue.GetOrThrow())];
      i := i + 1;
    }
    assert input[..i] == input;
    return Success(ops.appendToPrefix(prefix, ops.createMap(encodedMap)));
  }

  /** One step of the encode loop: the next pair is encodable and extends the pairs encoded so far. */
  lemma EncodePairsStep<K, V, F>(kc: Codec<K, F>, vc: Codec<V, F>, ops: Ops<F>, entries: Dict<K, V>, i: nat)
    requires PairsEncodeUntilFailure(kc, vc, ops, entries)
    requires i < |entries| && PairsEncodeUntilFailure(kc, vc, ops, entries[..i])
    requires EncodePairs(kc, vc, ops, entries[..i]).Success?
    ensures PairsEncodeUntilFailure(kc, vc, ops, entries[..i + 1])
    ensures kc.encode.requires(entries[i].0, ops, ops.empty)
    ensures kc.EncodeStart(ops, entries[i].0).Success? ==> vc.encode.requires(entries[i].1, ops, ops.empty)
    ensures var init := EncodePairs(kc, vc, ops, entries[..i]).value;
      var key := kc.EncodeStart(ops, entries[i].0);
      EncodePairs(kc, vc, ops, entries[..i + 1])
        == if key.Error? then Error(KeyEncodeFailure(key.message), Some(init))
           else var value := vc.EncodeStart(ops, entries[i].1);
             if value.Error? then Error(ValueEncodeFailure(value.message), Some(init))
             else Success(init + [(key.value, value.value)])
  {
    PrefixPairsEncode(kc, vc, ops, entries, i + 1);
    assert entries[..i + 1][..i] == entries[..i];
    assert entries[..i + 1][i] == entries[i];
  }

  lemma {:induction false} PrefixPairsEncode<K, V, F>(kc: Codec<K, F>, vc: Codec<V, F>, ops: Ops<F>, entries: Dict<K, V>, k: nat)
    requires PairsEncodeUntilFailure(kc, vc, ops, entries)
    requires k <= |entries|
    ensures PairsEncodeUntilFailure(kc, vc, ops, entries[..k])
    decreases |entries| - k
  {
    if k < |entries| {
      assert entries[..|entries| - 1][..k] == entries[..k];
      PrefixPairsEncode(kc, vc, ops, entries[..|entries| - 1], k);
    } else {
      assert entries[..k] == entries;
    }
  }

  lemma {:induction false} EncodePairsStaysFailed<K, V, F>(kc: Codec<K, F>, vc: Codec<V, F>, ops: Ops<F>, entries: Dict<K, V>, k: nat)
    requires PairsEncodeUntilFailure(kc, vc, ops, entries)
    requires 0 < k <= |entries|
    requires PairsEncodeUntilFailure(kc, vc, ops, entries[..k])
    requires EncodePairs(kc, vc, ops, entries[..k]).Error?
    ensures EncodePairs(kc, vc, ops, entries) == EncodePairs(kc, vc, ops, entries[..k])
    decreases |entries| - k
  {
    if k == |entries| {
      assert entries[..k] == entries;
    } else {
      var init := entries[..|entries| - 1];
      assert init[..k] == entries[..k];
      EncodePairsStaysFailed(kc, vc, ops, init, k);
    }
  }

  /** `new DictionaryCodec<TKey, TValue>(keyCodec, valueCodec)`. */
  function DictionaryCodec<K(==), V, F>(kc: Codec<K, F>, vc: Codec<V, F>): Codec<Dict<K, V>, F>
  {
    Codec(
      (input, ops, prefix) requires DictionaryEncodes(kc, vc, ops, input) => DictionaryEncodeSpec(kc, vc, ops, input, prefix),
      (ops, input) requires DictionaryDecodes(kc, vc, ops, input) => DictionaryDecodeSpec(kc, vc, ops, input))
  }

  // ------------------------------------------------------------ round trip

  /** Every key and every value encodes, each pair in enumeration order. */
  ghost predicate EntriesRoundTrip<K, V, F>(kc: Codec<K, F>, vc: Codec<V, F>, ops: Ops<F>, entries: Dict<K, V>)
  {
    forall i | 0 <= i < |entries| :: RoundTrips(kc, ops, entries[i].0) && RoundTrips(vc, ops, entries[i].1)
  }

  function EncodedEntries<K, V, F>(kc: Codec<K, F>, vc: Codec<V, F>, ops: Ops<F>, entries: Dict<K, V>): (r: seq<(F, F)>)
    requires EntriesRoundTrip(kc, vc, ops, entries)
    ensures |r| == |entries|
  {
    seq(|entries|, i requires 0 <= i < |entries| => (kc.EncodeStart(ops, entries[i].0).value, vc.EncodeStart(ops, entries[i].1).value))
  }

  lemma {:induction false} EncodePairsAll<K, V, F>(kc: Codec<K, F>, vc: Codec<V, F>, ops: Ops<F>, entries: Dict<K, V>)
    requires EntriesRoundTrip(kc, vc, ops, entries)
    ensures PairsEncodeUntilFailure(kc, vc, ops, entries)
    ensures EncodePairs(kc, vc, ops, entries) == Success(EncodedEntries(kc, vc, ops, entries))
    decreases |entries|
  {
    if |entries| > 0 {
      var n := |entries|;
      var init := entries[..n - 1];
      assert EntriesRoundTrip(kc, vc, ops, init) by {
        forall i | 0 <= i < |init| ensures RoundTrips(kc, ops, init[i].0) && RoundTrips(vc, ops, init[i].1) {
          assert init[i] == entries[i];
        }
      }
      EncodePairsAll(kc, vc, ops, init);
      assert RoundTrips(kc, ops, entries[n - 1].0) && RoundTrips(vc, ops, entries[n - 1].1);
      assert EncodedEntries(kc, vc, ops, entries) == EncodedEntries(kc, vc, ops, init) + [EncodedEntries(kc, vc, ops, entries)[n - 1]];
    }
  }

  lemma {:induction false} DecodePairsAll<K, V, F>(kc: Codec<K, F>, vc: Codec<V, F>, ops: Ops<F>, input: F, entries: Dict<K, V>)
    requires EntriesRoundTrip(kc, vc, ops, entries)
    ensures PairsDecodeUntilFailure(kc, vc, ops, input, EncodedEntries(kc, vc, ops, entries))
    ensures DecodePairs(kc, vc, ops, input, EncodedEntries(kc, vc, ops, entries))
         == Success((PutAll([], entries), RemoveAll(ops, input, Keys(EncodedEntries(kc, vc, ops, entries)))))
    decreases |entries|
  {
    var pairs := EncodedEntries(kc, vc, ops, entries);
    if |entries| > 0 {
      var n := |entries|;
      var init := entries[..n - 1];
      assert EntriesRoundTrip(kc, vc, ops, init) by {
        forall i | 0 <= i < |init| ensures RoundTrips(kc, ops, init[i].0) && RoundTrips(vc, ops, init[i].1) {
          assert init[i] == entries[i];
        }
      }
      DecodePairsAll(kc, vc, ops, input, init);
      assert pairs[..n - 1] == EncodedEntries(kc, vc, ops, init);
      assert Keys(pairs)[..n - 1] == Keys(pairs[..n - 1]);
      assert RoundTrips(kc, ops, entries[n - 1].0) && RoundTrips(vc, ops, entries[n - 1].1);
    } else {
      assert Keys(pairs) == [];
    }
  }

  /**
   * The map law of a backend for given pairs: CreateMap accepts them, and
   * ReadAsMap of the map appended to the empty value gives them back in order.
   */
  ghost predicate MapLaw<F>(ops: Ops<F>, pairs: seq<(F, F)>)
  {
    ops.createMap.requires(pairs)
    && ops.readAsMap(ops.appendToPrefix(ops.empty, ops.createMap(pairs))) == Success(pairs)
  }

  /** A dictionary whose keys and values round-trip round-trips, entries in the same order. */
  lemma DictionaryRoundTrips<K, V, F>(kc: Codec<K, F>, vc: Codec<V, F>, ops: Ops<F>, entries: Dict<K, V>)
    requires DistinctKeys(entries)
    requires EntriesRoundTrip(kc, vc, ops, entries)
    requires MapLaw(ops, EncodedEntries(kc, vc, ops, entries))
    ensures RoundTrips(DictionaryCodec(kc, vc), ops, entries)
  {
    EncodePairsAll(kc, vc, ops, entries);
    var out := ops.appendToPrefix(ops.empty, ops.createMap(EncodedEntries(kc, vc, ops, entries)));
    DecodePairsAll(kc, vc, ops, out, entries);
    PutAllDistinct(entries);
  }
}
