/**
 * The library's codecs on the node backend, for the values its tests use:
 * the identity rules of AppendToPrefix, the builtin round trips, a record
 * with a required and an optional field, collections and dictionaries, and
 * the constant codec on the byte backend. Each is stated for all values of
 * the test's type, so the tests' own values are instances.
 */
module Scenarios {
  import opened Results
  import opened DynamicOps
  import opened Codecs
  import opened BuiltinCodecs
  import opened FieldCodecs
  import opened RecordCodecs
  import opened ListCodecs
  import opened EnumerableCodecs
  import opened ConstantCodecs
  import opened Dicts
  import opened JsonNodes
  import DictionaryCodecs
  import JsonBytes

  /** The builtins on the node backend: every int, long, string and bool round-trips. */
  lemma DomBuiltinsRoundTrip(a: int32, b: int64, s: string, t: bool)
    ensures RoundTrips(Int32(), DomOps(), a)
    ensures RoundTrips(Int64(), DomOps(), b)
    ensures RoundTrips(String(), DomOps(), s)
    ensures RoundTrips(Bool(), DomOps(), t)
  {
    DomPrimitivesRoundTrip();
    BuiltinsRoundTrip(DomOps(), a, b, s, t);
  }

  /** Appending the empty value to a number gives the number; appending a number to the empty value gives the number. */
  lemma AppendEmptyToNumber(v: int32)
    ensures DomOps().appendToPrefix(CreateInt32(DomOps(), v), DomOps().empty) == CreateInt32(DomOps(), v)
    ensures DomOps().appendToPrefix(DomOps().empty, CreateInt32(DomOps(), v)) == CreateInt32(DomOps(), v)
  {
    AppendIdentities(CreateInt32(DomOps(), v));
  }

  /** On the byte backend the constant codec writes `{}` whatever it is given, and reads its constant back. */
  lemma ConstantOnBytes(ops: Ops<JsonBytes.JsonByteBuffer>, x: int32)
    requires ops.empty == JsonBytes.Empty()
    ensures ConstantCodec<int32, JsonBytes.JsonByteBuffer>(42).EncodeStart(ops, x) == Success(JsonBytes.FromMemory([123, 125]))
    ensures ConstantCodec<int32, JsonBytes.JsonByteBuffer>(42).Parse(ops, JsonBytes.FromMemory([123, 125])) == Success(42)
  {
    ConstantParsesToItsValue<int32, JsonBytes.JsonByteBuffer>(42, ops, x);
  }

  // ------------------------------------------------------------------ records

  datatype Person = Person(name: string, age: int32)

  function NameField(): FieldCodec<Person, string, Json> { Field(String(), (p: Person) => p.name, "Name") }
  function AgeField(): FieldCodec<Person, int32, Json> { OptionalField(Int32(), (p: Person) => p.age, "Age", 0) }

  /** A required string field "Name", then an optional int field "Age" with default 0. */
  function PersonCodec(): Codec<Person, Json>
  {
    RecordCodec2(NameField(), AgeField(), (name: string, age: int32) => Person(name, age))
  }

  /** The name, written into the empty map a record starts from, gives a one-member object. */
  lemma NameFieldEncoding(p: Person)
    ensures FieldEncodes(NameField(), p, DomOps(), DomOps().createEmptyMap)
    ensures FieldEncode(NameField(), p, DomOps(), DomOps().createEmptyMap) == Success(JObject([("Name", JString(p.name))]))
  {
    var ops := DomOps();
    BuiltinEncodersNeverFail(ops, p.age, 0, p.name, false, ops.empty);
    assert NameField().codec.EncodeStart(ops, p.name) == Success(JString(p.name));
    assert ops.mergeAndAppend(JObject([]), JString("Name"), JString(p.name)) == JObject([("Name", JString(p.name))]);
  }

  /** The age is written into that object in place, after the name. */
  lemma AgeFieldEncoding(p: Person)
    ensures FieldEncodes(AgeField(), p, DomOps(), JObject([("Name", JString(p.name))]))
    ensures FieldEncode(AgeField(), p, DomOps(), JObject([("Name", JString(p.name))]))
      == Success(JObject([("Name", JString(p.name)), ("Age", JNumber(p.age as real))]))
  {
    var ops := DomOps();
    var prefix := JObject([("Name", JString(p.name))]);
    assert ops.createString("Age") == JString("Age") && CreateInt32(ops, p.age) == JNumber(p.age as real);
    assert ops.prefixAfterMergeAndAppend.requires(prefix, JString("Age"), JNumber(p.age as real));
    assert ops.mergeAndAppend.requires(prefix, JString("Age"), JNumber(p.age as real));
    AgeWrittenAfterName(p.name, p.age);
    assert ops.prefixAfterMergeAndAppend(prefix, JString("Age"), JNumber(p.age as real))
      == JObject([("Name", JString(p.name)), ("Age", JNumber(p.age as real))]);
    OptionalInt32Encoding(ops, (p: Person) => p.age, "Age", 0, p, prefix);
  }

  /** An optional int field writes its value into the prefix in place; the intended one returns the merged map. */
  lemma OptionalInt32Encoding<T>(ops: Ops<Json>, getter: T -> int32, name: string, default: int32, x: T, prefix: Json)
    requires ops.mergeAndAppend.requires(prefix, ops.createString(name), CreateInt32(ops, getter(x)))
    requires ops.prefixAfterMergeAndAppend.requires(prefix, ops.createString(name), CreateInt32(ops, getter(x)))
    ensures FieldEncodes(OptionalField(Int32(), getter, name, default), x, ops, prefix)
    ensures FieldEncode(OptionalField(Int32(), getter, name, default), x, ops, prefix)
      == Success(ops.prefixAfterMergeAndAppend(prefix, ops.createString(name), CreateInt32(ops, getter(x))))
    ensures FieldEncodeIntended(OptionalField(Int32(), getter, name, default), x, ops, prefix)
      == Success(ops.mergeAndAppend(prefix, ops.createString(name), CreateInt32(ops, getter(x))))
  {
    BuiltinEncodersNeverFail(ops, getter(x), 0, "", false, ops.empty);
  }

  /** Writing "Age" into an object holding only "Name" appends it after the name. */
  lemma AgeWrittenAfterName(name: string, age: int32)
    ensures PrefixAfterMergeAndAppend(JObject([("Name", JString(name))]), JString("Age"), JNumber(age as real))
      == JObject([("Name", JString(name)), ("Age", JNumber(age as real))])
  {
    var named: Dict<string, Json> := [("Name", JString(name))];
    var aged: Dict<string, Json> := [("Age", JNumber(age as real))];
    assert aged[..0] == [];
    assert PutAll(named, aged) == Put(named, "Age", JNumber(age as real));
    assert "Name" != "Age";
    assert named[1..] == [];
    assert Put(named, "Age", JNumber(age as real)) == [("Name", JString(name)), ("Age", JNumber(age as real))];
  }

  /** The object a person encodes to: the name, then the age. */
  function PersonObject(p: Person): Json
  {
    JObject([("Name", JString(p.name)), ("Age", JNumber(p.age as real))])
  }

  lemma PersonRecordEncoding(p: Person)
    ensures Record2Encodes(NameField(), AgeField(), p, DomOps())
    ensures Record2Encode(NameField(), AgeField(), p, DomOps(), DomOps().empty) == Success(PersonObject(p))
  {
    NameFieldEncoding(p);
    AgeFieldEncoding(p);
  }

  /** Both fields are found in the encoded person, the age also after the name is removed. */
  lemma PersonFieldsStored(p: Person)
    ensures StoresUnder(DomOps(), PersonObject(p), "Name", String().EncodeStart(DomOps(), p.name).value)
    ensures StoresUnder(DomOps(), DomOps().removeValue(PersonObject(p), DomOps().createString("Name")), "Age",
                        Int32().EncodeStart(DomOps(), p.age).value)
  {
    var out := PersonObject(p);
    BuiltinEncodersNeverFail(DomOps(), p.age, 0, p.name, false, DomOps().empty);
    assert DomOps().removeValue(out, DomOps().createString("Name")) == out;
    assert "Name" != "Age" && out.members[1..] == [("Age", JNumber(p.age as real))];
    assert Lookup(out.members, "Age") == Lookup(out.members[1..], "Age") == Some(JNumber(p.age as real));
  }

  /** Every person round-trips and encodes to its object, "John Doe" aged 18 and "Jane Doe" with the default age among them. */
  lemma PersonRoundTrips(p: Person)
    ensures PersonCodec().encode.requires(p, DomOps(), DomOps().empty)
    ensures PersonCodec().EncodeStart(DomOps(), p) == Success(PersonObject(p))
    ensures RoundTrips(PersonCodec(), DomOps(), p)
  {
    DomBuiltinsRoundTrip(p.age, 0, p.name, false);
    PersonRecordEncoding(p);
    PersonFieldsStored(p);
    PersonRoundTripsOn(DomOps(), p, PersonObject(p));
  }

  /** The record law for persons, on any backend. */
  lemma PersonRoundTripsOn(ops: Ops<Json>, p: Person, out: Json)
    requires RoundTrips(String(), ops, p.name) && RoundTrips(Int32(), ops, p.age)
    requires Record2Encodes(NameField(), AgeField(), p, ops)
    requires Record2Encode(NameField(), AgeField(), p, ops, ops.empty) == Success(out)
    requires StoresUnder(ops, out, "Name", String().EncodeStart(ops, p.name).value)
    requires StoresUnder(ops, ops.removeValue(out, ops.createString("Name")), "Age", Int32().EncodeStart(ops, p.age).value)
    ensures PersonCodec().encode.requires(p, ops, ops.empty)
    ensures PersonCodec().EncodeStart(ops, p) == Success(out)
    ensures RoundTrips(PersonCodec(), ops, p)
  {
    Record2RoundTrips(NameField(), AgeField(), (name: string, age: int32) => Person(name, age), ops, p);
  }

  datatype Aged = Aged(age: int32)

  /** A record whose only field is optional. */
  function AgedCodec(): Codec<Aged, Json>
  {
    RecordCodec1(OptionalField(Int32(), (a: Aged) => a.age, "Age", 0), (age: int32) => Aged(age))
  }

  /**
   * An optional field written into an empty map is lost: the record encodes
   * to the empty value, which parses to the default, so no age but 0 comes
   * back.
   */
  lemma OptionalFirstFieldIsLost(a: Aged)
    ensures Encodes(AgedCodec(), DomOps(), a)
    ensures AgedCodec().EncodeStart(DomOps(), a) == Success(Sentinel)
    ensures AgedCodec().decode.requires(DomOps(), Sentinel) && AgedCodec().Parse(DomOps(), Sentinel) == Success(Aged(0))
    ensures RoundTrips(AgedCodec(), DomOps(), a) <==> a.age == 0
  {
  }

  /** The intended optional field stores its value in the empty map, and the field reads it back. */
  lemma OptionalFieldIntendedReadsBack(a: Aged)
    ensures FieldEncodes(OptionalField(Int32(), (a: Aged) => a.age, "Age", 0), a, DomOps(), DomOps().createEmptyMap)
    ensures FieldEncodeIntended(OptionalField(Int32(), (a: Aged) => a.age, "Age", 0), a, DomOps(), DomOps().createEmptyMap)
      == Success(JObject([("Age", JNumber(a.age as real))]))
    ensures FieldDecodes(OptionalField(Int32(), (a: Aged) => a.age, "Age", 0), DomOps(), JObject([("Age", JNumber(a.age as real))]))
    ensures FieldDecode(OptionalField(Int32(), (a: Aged) => a.age, "Age", 0), DomOps(), JObject([("Age", JNumber(a.age as real))])).Success?
    ensures FieldDecode(OptionalField(Int32(), (a: Aged) => a.age, "Age", 0), DomOps(), JObject([("Age", JNumber(a.age as real))])).value.0 == a.age
  {
    OptionalAgeEncoding(a);
    OptionalAgeDecoding(a);
  }

  lemma OptionalAgeEncoding(a: Aged)
    ensures FieldEncodes(OptionalField(Int32(), (a: Aged) => a.age, "Age", 0), a, DomOps(), DomOps().createEmptyMap)
    ensures FieldEncodeIntended(OptionalField(Int32(), (a: Aged) => a.age, "Age", 0), a, DomOps(), DomOps().createEmptyMap)
      == Success(JObject([("Age", JNumber(a.age as real))]))
  {
    var ops := DomOps();
    assert ops.createString("Age") == JString("Age") && CreateInt32(ops, a.age) == JNumber(a.age as real);
    assert ops.createEmptyMap == JObject([]);
    assert ops.prefixAfterMergeAndAppend.requires(JObject([]), JString("Age"), JNumber(a.age as real));
    assert ops.mergeAndAppend.requires(JObject([]), JString("Age"), JNumber(a.age as real));
    assert ops.mergeAndAppend(JObject([]), JString("Age"), JNumber(a.age as real)) == JObject([("Age", JNumber(a.age as real))]);
    OptionalInt32Encoding(ops, (a: Aged) => a.age, "Age", 0, a, JObject([]));
  }

  lemma OptionalAgeDecoding(a: Aged)
    ensures FieldDecodes(OptionalField(Int32(), (a: Aged) => a.age, "Age", 0), DomOps(), JObject([("Age", JNumber(a.age as real))]))
    ensures FieldDecode(OptionalField(Int32(), (a: Aged) => a.age, "Age", 0), DomOps(), JObject([("Age", JNumber(a.age as real))])).Success?
    ensures FieldDecode(OptionalField(Int32(), (a: Aged) => a.age, "Age", 0), DomOps(), JObject([("Age", JNumber(a.age as real))])).value.0 == a.age
  {
    var f := OptionalField(Int32(), (a: Aged) => a.age, "Age", 0);
    DomBuiltinsRoundTrip(a.age, 0, "", false);
    BuiltinEncodersNeverFail(DomOps(), a.age, 0, "", false, DomOps().empty);
    assert GetValue(JObject([("Age", JNumber(a.age as real))]), "Age") == Success(JNumber(a.age as real));
    FieldReadsBack(f, DomOps(), a, JObject([("Age", JNumber(a.age as real))]));
  }

  // -------------------------------------------------------------- collections

  /** `Int32.ForEnumerable()` round-trips every sequence of ints, [1, 2, 3] and [] among them. */
  lemma IntsRoundTripAsEnumerable(xs: seq<int32>)
    ensures RoundTrips(EnumerableCodec(Int32()), DomOps(), xs)
  {
    forall i | 0 <= i < |xs| ensures RoundTrips(Int32(), DomOps(), xs[i]) {
      DomBuiltinsRoundTrip(xs[i], 0, "", false);
    }
    if AllEncode(Int32(), DomOps(), xs) {
      DomStreamLaw(Encodings(Int32(), DomOps(), xs));
    }
    EnumerableRoundTrips(Int32(), DomOps(), xs);
  }

  /** Every list of int32 values encodes element by element, on any backend. */
  lemma Int32EncodesAll<F>(ops: Ops<F>, xs: seq<int32>)
    ensures AllEncode(Int32(), ops, xs)
  {
    forall i | 0 <= i < |xs| ensures Int32().encode.requires(xs[i], ops, ops.empty) && Int32().EncodeStart(ops, xs[i]).Success? {
      BuiltinEncodersNeverFail(ops, xs[i], 0, "", false, ops.empty);
    }
  }

  /** With the node backend's list builders, AddToList never fails and the list it builds is the array of the encodings. */
  lemma {:induction false} BuiltListIsArray(ops: Ops<Json>, xs: seq<int32>)
    requires ops.createEmptyList == JArray([]) && ops.addToList == AddToList
    ensures AddsSucceed(Int32(), ops, xs) && AllEncode(Int32(), ops, xs)
    ensures BuiltList(Int32(), ops, xs) == JArray(Encodings(Int32(), ops, xs))
    decreases |xs|
  {
    Int32EncodesAll(ops, xs);
    if |xs| > 0 {
      var n := |xs|;
      var init := xs[..n - 1];
      BuiltListIsArray(ops, init);
      BuiltinEncodersNeverFail(ops, xs[n - 1], 0, "", false, ops.empty);
      var e := CreateInt32(ops, xs[n - 1]);
      assert ops.addToList(JArray(Encodings(Int32(), ops, init)), e) == Success(JArray(Encodings(Int32(), ops, init) + [e]));
      assert Encodings(Int32(), ops, xs) == Encodings(Int32(), ops, init) + [e];
    }
  }

  lemma DomBuiltList(xs: seq<int32>)
    ensures AddsSucceed(Int32(), DomOps(), xs) && AllEncode(Int32(), DomOps(), xs)
    ensures BuiltList(Int32(), DomOps(), xs) == JArray(Encodings(Int32(), DomOps(), xs))
  {
    BuiltListIsArray(DomOps(), xs);
  }

  /**
   * `Int32.ForList()` as written encodes every list to the empty value, the
   * prefix it started from, and that does not parse as a list.
   */
  lemma ListCodecLosesElements(xs: seq<int32>)
    ensures Encodes(ListCodec(Int32()), DomOps(), xs)
    ensures ListCodec(Int32()).EncodeStart(DomOps(), xs) == Success(Sentinel)
    ensures ListCodec(Int32()).decode.requires(DomOps(), Sentinel) && ListCodec(Int32()).decode(DomOps(), Sentinel).Error?
    ensures !RoundTrips(ListCodec(Int32()), DomOps(), xs)
  {
    DomBuiltList(xs);
    ListEncodeKeepsPrefix(Int32(), DomOps(), xs, Sentinel);
  }

  /** The intended list codec round-trips every list of ints. */
  lemma ListIntendedRoundTripsOnDom(xs: seq<int32>)
    ensures RoundTrips(ListCodecIntended(Int32()), DomOps(), xs)
  {
    forall i | 0 <= i < |xs| ensures RoundTrips(Int32(), DomOps(), xs[i]) {
      DomBuiltinsRoundTrip(xs[i], 0, "", false);
    }
    DomBuiltList(xs);
    ListIntendedRoundTrips(Int32(), DomOps(), xs);
  }

  // ------------------------------------------------------------- dictionaries

  /** A non-empty string-to-int dictionary round-trips, its entries in order. */
  lemma DictionaryRoundTripsOnDom(entries: Dict<string, int32>)
    requires |entries| > 0 && DistinctKeys(entries)
    ensures RoundTrips(DictionaryCodecs.DictionaryCodec(String(), Int32()), DomOps(), entries)
  {
    DomPrimitivesRoundTrip();
    var pairs := NodeEntries(DomOps(), entries);
    DomMapLaw(pairs);
    DictionaryCodecs.DictionaryRoundTrips(String(), Int32(), DomOps(), entries);
  }

  /**
   * On a backend that makes strings and numbers into string and number nodes
   * and reads them back, the entries of a string-to-int dictionary round-trip
   * and encode to string-keyed pairs with the dictionary's distinct keys.
   */
  lemma NodeEntries(ops: Ops<Json>, entries: Dict<string, int32>) returns (pairs: seq<(Json, Json)>)
    requires DistinctKeys(entries)
    requires NumbersRoundTrip(ops) && StringsRoundTrip(ops) && BoolsRoundTrip(ops)
    requires forall s: string :: ops.createString(s) == JString(s)
    requires forall d: real :: ops.createNumeric(d) == JNumber(d)
    ensures DictionaryCodecs.EntriesRoundTrip(String(), Int32(), ops, entries)
    ensures pairs == DictionaryCodecs.EncodedEntries(String(), Int32(), ops, entries)
    ensures forall i | 0 <= i < |pairs| :: pairs[i].0.JString?
    ensures DistinctKeys(StringKeyed(pairs))
  {
    forall i | 0 <= i < |entries| ensures RoundTrips(String(), ops, entries[i].0) && RoundTrips(Int32(), ops, entries[i].1) {
      BuiltinsRoundTrip(ops, entries[i].1, 0, entries[i].0, false);
    }
    pairs := DictionaryCodecs.EncodedEntries(String(), Int32(), ops, entries);
    forall i | 0 <= i < |pairs| ensures pairs[i] == (JString(entries[i].0), JNumber(entries[i].1 as real)) {
      BuiltinEncodersNeverFail(ops, entries[i].1, 0, entries[i].0, false, ops.empty);
    }
    assert DistinctKeys(StringKeyed(pairs)) by {
      forall i, j | 0 <= i < j < |pairs| ensures StringKeyed(pairs)[i].0 != StringKeyed(pairs)[j].0 {
        assert StringKeyed(pairs)[i].0 == entries[i].0 && StringKeyed(pairs)[j].0 == entries[j].0;
      }
    }
  }

  /** The empty dictionary encodes to the empty value, which ReadAsMap rejects, so it does not round-trip. */
  lemma EmptyDictionaryIsNotRead()
    ensures Encodes(DictionaryCodecs.DictionaryCodec<string, int32, Json>(String(), Int32()), DomOps(), [])
    ensures DictionaryCodecs.DictionaryCodec<string, int32, Json>(String(), Int32()).EncodeStart(DomOps(), []) == Success(Sentinel)
    ensures !RoundTrips(DictionaryCodecs.DictionaryCodec<string, int32, Json>(String(), Int32()), DomOps(), [])
  {
    assert DictionaryCodecs.EncodePairs(String(), Int32(), DomOps(), []) == Success([]);
  }

  /** With ReadAsMap reading the empty value as the empty map, every dictionary round-trips, the empty one included. */
  lemma DictionaryRoundTripsIntended(entries: Dict<string, int32>)
    requires DistinctKeys(entries)
    ensures RoundTrips(DictionaryCodecs.DictionaryCodec(String(), Int32()), DomOpsIntended(), entries)
  {
    DomPrimitivesRoundTrip();
    var pairs := NodeEntries(DomOpsIntended(), entries);
    DomMapLawIntended(pairs);
    DictionaryCodecs.DictionaryRoundTrips(String(), Int32(), DomOpsIntended(), entries);
  }
}
