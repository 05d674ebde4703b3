/**
 * The node backend (JsonOps.cs at the library root): values are JSON nodes,
 * objects are ordered dictionaries of their members, and the empty value is
 * one shared node, a JSON string "{}", recognised by identity; here it is the
 * constructor `Sentinel`, distinct from every `JString("{}")`.
 *
 * Appending an object to an object writes the value's members into the prefix
 * object in place, and RemoveFromInput deletes keys from the input object in
 * place. Nodes are values here, so each such method returns the node that the
 * source mutates as it is left afterwards, beside its result.
 */
module JsonNodes {
  import opened Results
  import opened DynamicOps
  import opened Dicts

  datatype Json =
    | Sentinel
    | JNull
    | JBool(b: bool)
    | JNumber(n: real)
    | JString(s: string)
    | JArray(elements: seq<Json>)
    | JObject(members: seq<(string, Json)>)

  type Members = Dict<string, Json>

  // ------------------------------------------------------------ node values

  /** A JsonValue holding a string; the sentinel is one. */
  predicate IsStringValue(node: Json)
  {
    node.JString? || node.Sentinel?
  }

  /** `GetValue<string>()` on a string value. */
  function KeyString(node: Json): string
    requires IsStringValue(node)
  {
    if node.Sentinel? then "{}" else node.s
  }

  predicate IsEmptyObject(node: Json)
  {
    node.JObject? && |node.members| == 0
  }

  /** `Empty`: the string value "{}", which AppendToPrefix treats as no value. */
  function Empty(): (r: Json)
    ensures IsStringValue(r) && KeyString(r) == "{}"
  {
    Sentinel
  }

  const NotNumeric := "Expected numeric JSON value"
  const NotString := "Expected string JSON value"
  const NotBool := "Expected bool JSON value"
  const NotArray := "Expected JSON array"
  const NotMap := "Expected JSON map"

  /** `GetNumber`: a failure keeps `default(decimal)` as its partial. */
  function GetNumber(input: Json): (r: DataResult<real>)
    ensures input.JNumber? ==> r == Success(input.n)
    ensures !input.JNumber? ==> r == Error(NotNumeric, Some(0.0))
  {
    if input.JNumber? then Success(input.n) else Fail(NotNumeric, Some(0.0))
  }

  /** `GetString`: the sentinel is a string value and reads as "{}". */
  function GetString(input: Json): (r: DataResult<string>)
    ensures IsStringValue(input) ==> r == Success(KeyString(input))
    ensures !IsStringValue(input) ==> r == Error(NotString, None)
  {
    if IsStringValue(input) then Success(KeyString(input)) else Fail(NotString, None)
  }

  function GetBool(input: Json): (r: DataResult<bool>)
    ensures input.JBool? ==> r == Success(input.b)
    ensures !input.JBool? ==> r == Error(NotBool, Some(false))
  {
    if input.JBool? then Success(input.b) else Fail(NotBool, Some(false))
  }

  /** `ReadAsStream`: the elements of an array. */
  function ReadAsStream(input: Json): (r: DataResult<seq<Json>>)
    ensures input.JArray? ==> r == Success(input.elements)
    ensures !input.JArray? ==> r == Error(NotArray, None)
  {
    if input.JArray? then Success(input.elements) else Fail(NotArray, None)
  }

  /** `ReadAsMap`: the members of an object in order, each key as a new string value. */
  function ReadAsMap(input: Json): (r: DataResult<seq<(Json, Json)>>)
    ensures !input.JObject? ==> r == Error(NotMap, None)
    ensures input.JObject? ==> r.Success? && |r.value| == |input.members|
    ensures input.JObject? ==> forall i | 0 <= i < |input.members| :: r.value[i] == (JString(input.members[i].0), input.members[i].1)
  {
    if !input.JObject? then Fail(NotMap, None)
    else Success(seq(|input.members|, i requires 0 <= i < |input.members| => (JString(input.members[i].0), input.members[i].1)))
  }

  /** The string keys of pairs whose keys are all string values. */
  function StringKeyed(pairs: seq<(Json, Json)>): (r: Members)
    requires forall i | 0 <= i < |pairs| :: IsStringValue(pairs[i].0)
    ensures |r| == |pairs|
    ensures forall i | 0 <= i < |pairs| :: r[i] == (KeyString(pairs[i].0), pairs[i].1)
  {
    seq(|pairs|, i requires 0 <= i < |pairs| => (KeyString(pairs[i].0), pairs[i].1))
  }

  /** Pairs keyed by string nodes are read back by ReadAsMap from the object their string keys make. */
  lemma StringKeyedReadsBack(pairs: seq<(Json, Json)>)
    requires forall i | 0 <= i < |pairs| :: pairs[i].0.JString?
    ensures ReadAsMap(JObject(StringKeyed(pairs))) == Success(pairs)
  {
    var keyed := StringKeyed(pairs);
    var read := ReadAsMap(JObject(keyed)).value;
    assert |read| == |keyed| == |pairs|;
    forall i | 0 <= i < |pairs| ensures read[i] == pairs[i] {
      assert read[i] == (JString(keyed[i].0), keyed[i].1);
      assert keyed[i].0 == pairs[i].0.s;
      assert JString(pairs[i].0.s) == pairs[i].0;
    }
    assert read == pairs;
  }

  /** `CreateMap` as a function: each pair written in turn into a new object. */
  function CreateMapSpec(pairs: seq<(Json, Json)>): Json
    requires forall i | 0 <= i < |pairs| :: IsStringValue(pairs[i].0)
  {
    JObject(PutAll([], StringKeyed(pairs)))
  }

  /** `Merge`: a one-member object; a key that is not a string value throws. */
  function Merge(key: Json, value: Json): (r: Json)
    requires IsStringValue(key)
    ensures r == JObject([(KeyString(key), value)])
  {
    JObject([(KeyString(key), value)])
  }

  /** `AppendToPrefix` as a function: what it returns. */
  function Appended(prefix: Json, value: Json): Json
  {
    if value == Sentinel || IsEmptyObject(value) then prefix
    else if prefix == Sentinel || IsEmptyObject(prefix) then value
    else if prefix.JObject? && value.JObject? then JObject(PutAll(prefix.members, value.members))
    else value
  }

  /** The prefix as `AppendToPrefix` leaves it: written into only when both are non-empty objects. */
  function PrefixAfterAppend(prefix: Json, value: Json): Json
  {
    if value == Sentinel || IsEmptyObject(value) then prefix
    else if prefix == Sentinel || IsEmptyObject(prefix) then prefix
    else if prefix.JObject? && value.JObject? then JObject(PutAll(prefix.members, value.members))
    else prefix
  }

  function MergeAndAppend(m: Json, key: Json, value: Json): (r: Json)
    requires IsStringValue(key)
    ensures r.JObject?
  {
    Appended(m, Merge(key, value))
  }

  function PrefixAfterMergeAndAppend(m: Json, key: Json, value: Json): Json
    requires IsStringValue(key)
  {
    PrefixAfterAppend(m, Merge(key, value))
  }

  /** `RemoveFromInput` as a function: the input as the call leaves it, which is also what it returns. */
  function RemovedFromInput(input: Json, value: Json): Json
  {
    if input.JObject? && value.JObject? then JObject(RemoveKeys(input.members, Keys(value.members))) else input
  }

  // ------------------------------------------------------------ the methods

  /** `CreateList`: the elements added in order to a new array. */
  method CreateList(elements: seq<Json>) returns (r: Json)
    ensures r.JArray? && r.elements == elements
    ensures ReadAsStream(r) == Success(elements)
  {
    var arr: seq<Json> := [];
    for i := 0 to |elements|
      invariant arr == elements[..i]
    {
      arr := arr + [elements[i]];
    }
    assert elements[..|elements|] == elements;
    return JArray(arr);
  }

  /** `CreateMap`: every pair written into a new object with `obj[key] = value`. */
  method CreateMap(pairs: seq<(Json, Json)>) returns (r: Json)
    requires forall i | 0 <= i < |pairs| :: IsStringValue(pairs[i].0)
    ensures r == CreateMapSpec(pairs)
  {
    var members: Members := [];
    var keyed := StringKeyed(pairs);
    for i := 0 to |pairs|
      invariant members == PutAll([], keyed[..i])
    {
      assert keyed[..i + 1][..i] == keyed[..i];
      members := Put(members, KeyString(pairs[i].0), pairs[i].1);
    }
    assert keyed[..|pairs|] == keyed;
    return JObject(members);
  }

  /**
   * `AppendToPrefix`: an empty value gives the prefix and an empty prefix the
   * value; two objects give the prefix with the value's members written into
   * it; anything else gives the value. `prefixAfter` is the prefix node as
   * the call leaves it.
   */
  method AppendToPrefix(prefix: Json, value: Json) returns (r: Json, prefixAfter: Json)
    ensures r == Appended(prefix, value) && prefixAfter == PrefixAfterAppend(prefix, value)
  {
    if value == Sentinel || IsEmptyObject(value) {
      return prefix, prefix;
    }
    if prefix == Sentinel || IsEmptyObject(prefix) {
      return value, prefix;
    }
    if prefix.JObject? && value.JObject? {
      var members := prefix.members;
      for i := 0 to |value.members|
        invariant members == PutAll(prefix.members, value.members[..i])
      {
        assert value.members[..i + 1][..i] == value.members[..i];
        members := Put(members, value.members[i].0, value.members[i].1);
      }
      assert value.members[..|value.members|] == value.members;
      return JObject(members), JObject(members);
    }
    return value, prefix;
  }

  /** `RemoveFromInput`: when both are objects, each key of the value is removed from the input. */
  method RemoveFromInput(input: Json, value: Json) returns (r: Json)
    ensures r == RemovedFromInput(input, value)
  {
    if input.JObject? && value.JObject? {
      var members := input.members;
      var keys := Keys(value.members);
      for i := 0 to |keys|
        invariant members == RemoveKeys(input.members, keys[..i])
      {
        assert keys[..i + 1][..i] == keys[..i];
        members := RemoveKey(members, keys[i]);
      }
      assert keys[..|keys|] == keys;
      return JObject(members);
    }
    return input;
  }

  // ----------------------------------------------------- what they promise

  /** The identity rules: an empty side leaves the other as it is, and neither node is written. */
  lemma AppendIdentities(node: Json)
    ensures Appended(node, Empty()) == node && PrefixAfterAppend(node, Empty()) == node
    ensures Appended(Empty(), node) == (if IsEmptyObject(node) then Empty() else node)
    ensures PrefixAfterAppend(Empty(), node) == Empty()
    ensures Appended(node, JObject([])) == node
  {
  }

  /**
   * Two non-empty objects: every key of the value takes the value's value,
   * every other key keeps the prefix's, and the result is the written prefix.
   */
  lemma AppendObjects(pm: Members, vm: Members, k: string)
    requires |pm| > 0 && |vm| > 0
    ensures Appended(JObject(pm), JObject(vm)) == PrefixAfterAppend(JObject(pm), JObject(vm))
    ensures Appended(JObject(pm), JObject(vm)).JObject?
    ensures Lookup(Appended(JObject(pm), JObject(vm)).members, k)
      == if LastValue(vm, k).Some? then LastValue(vm, k) else Lookup(pm, k)
  {
    PutAllLookup(pm, vm, k);
  }

  /** Any other combination of non-empty shapes gives the value and leaves the prefix alone. */
  lemma AppendOtherShapes(prefix: Json, value: Json)
    requires prefix != Sentinel && !IsEmptyObject(prefix) && value != Sentinel && !IsEmptyObject(value)
    requires !(prefix.JObject? && value.JObject?)
    ensures Appended(prefix, value) == value && PrefixAfterAppend(prefix, value) == prefix
  {
  }

  /** `MergeAndAppend` into an object stores the value under the key, other keys untouched. */
  lemma MergeAndAppendStores(m: Json, key: Json, value: Json, k: string)
    requires IsStringValue(key) && value != Sentinel
    requires m == Sentinel || m.JObject?
    ensures MergeAndAppend(m, key, value).JObject?
    ensures Lookup(MergeAndAppend(m, key, value).members, k)
      == if k == KeyString(key) then Some(value) else if m.JObject? then Lookup(m.members, k) else None
  {
    var one := [(KeyString(key), value)];
    if m.JObject? && |m.members| > 0 {
      PutAllLookup(m.members, one, k);
      assert one[..0] == [];
    }
  }

  /** `CreateMap` keeps the last value written for each key. */
  lemma CreateMapLastWins(pairs: seq<(Json, Json)>, k: string)
    requires forall i | 0 <= i < |pairs| :: IsStringValue(pairs[i].0)
    ensures Lookup(CreateMapSpec(pairs).members, k) == LastValue(StringKeyed(pairs), k)
  {
    PutAllLookup([], StringKeyed(pairs), k);
  }

  /** `CreateMap` of pairs with distinct string keys keeps them all, in order. */
  lemma CreateMapDistinct(pairs: seq<(Json, Json)>)
    requires forall i | 0 <= i < |pairs| :: IsStringValue(pairs[i].0)
    requires DistinctKeys(StringKeyed(pairs))
    ensures CreateMapSpec(pairs) == JObject(StringKeyed(pairs))
  {
    PutAllDistinct(StringKeyed(pairs));
  }

  /** `RemoveFromInput` on two objects deletes exactly the value's keys from the input. */
  lemma RemoveFromObject(im: Members, vm: Members, k: string)
    ensures RemovedFromInput(JObject(im), JObject(vm)).JObject?
    ensures Lookup(RemovedFromInput(JObject(im), JObject(vm)).members, k)
      == if k in Keys(vm) then None else Lookup(im, k)
  {
    RemoveKeysLookup(im, Keys(vm), k);
  }

  /** Any other input is returned untouched, so removing a key given as a string value does nothing. */
  lemma RemoveFromNonObjects(input: Json, value: Json)
    requires !(input.JObject? && value.JObject?)
    ensures RemovedFromInput(input, value) == input
  {
  }

  // ------------------------------------------------- the node backend's ops

  const KeyNotFound := "Could not fetch value under key"

  /** A lookup by key, which the source's node backend does not define. */
  function GetValue(input: Json, name: string): (r: DataResult<Json>)
    ensures input.JObject? && Lookup(input.members, name).Some? ==> r == Success(Lookup(input.members, name).value)
    ensures !(input.JObject? && Lookup(input.members, name).Some?) ==> r.Error?
  {
    if input.JObject? && Lookup(input.members, name).Some? then Success(Lookup(input.members, name).value)
    else Fail(KeyNotFound + " '" + name + "'", None)
  }

  function AddToList(list: Json, element: Json): DataResult<Json>
  {
    if list.JArray? then Success(JArray(list.elements + [element])) else Fail(NotArray, None)
  }

  function AddToMap(m: Json, key: Json, value: Json): DataResult<Json>
  {
    if m.JObject? && IsStringValue(key) then Success(JObject(Put(m.members, KeyString(key), value)))
    else Fail(NotMap, None)
  }

  /** A record builder: the first failed field, or the fields written into a new object and appended. */
  function Build(entries: seq<(Json, DataResult<Json>)>, prefix: Json): DataResult<Json>
    decreases |entries|
  {
    if |entries| == 0 then Success(Appended(prefix, JObject([])))
    else if entries[0].1.Error? then Error(entries[0].1.message, None)
    else if !IsStringValue(entries[0].0) then Fail(NotString, None)
    else
      var rest := Build(entries[1..], JObject([]));
      if rest.Error? then rest
      else Success(Appended(prefix, Appended(Merge(entries[0].0, entries[0].1.value), rest.value)))
  }

  /**
   * The node backend as an operation record. Its own members are used as
   * they are; GetValue, the list and map builders, ReadList/ReadMap,
   * RemoveFromInput by key name and Build, which it does not define, are
   * filled in with lookups and writes on the same nodes.
   */
  function DomOps(): (ops: Ops<Json>)
    ensures ops.empty == Sentinel
  {
    Ops(
      Sentinel,
      (d: real) => JNumber(d),
      (s: string) => JString(s),
      (b: bool) => JBool(b),
      GetNumber,
      GetString,
      GetBool,
      GetValue,
      JArray([]),
      AddToList,
      ReadAsStream,
      (list: Json) => list,
      JObject([]),
      AddToMap,
      ReadAsMap,
      (m: Json) => m,
      Appended,
      PrefixAfterAppend,
      (input: Json, name: string) => if input.JObject? then JObject(RemoveKey(input.members, name)) else input,
      RemovedFromInput,
      ReadAsStream,
      ReadAsMap,
      (elements: seq<Json>) => JArray(elements),
      (pairs: seq<(Json, Json)>) requires forall i | 0 <= i < |pairs| :: IsStringValue(pairs[i].0) => CreateMapSpec(pairs),
      (key: Json, value: Json) requires IsStringValue(key) => Merge(key, value),
      (m: Json, key: Json, value: Json) requires IsStringValue(key) => MergeAndAppend(m, key, value),
      (m: Json, key: Json, value: Json) requires IsStringValue(key) => PrefixAfterMergeAndAppend(m, key, value),
      Build)
  }

  /** The node backend reads back every number, string and boolean it creates. */
  lemma DomPrimitivesRoundTrip()
    ensures NumbersRoundTrip(DomOps()) && StringsRoundTrip(DomOps()) && BoolsRoundTrip(DomOps())
  {
  }

  /** ReadAsStream gives back what CreateList was given. */
  lemma DomStreamLaw(elements: seq<Json>)
    ensures DomOps().readAsStream(DomOps().createList(elements)) == Success(elements)
  {
  }

  /**
   * A non-empty map with distinct string keys comes back from ReadAsMap in
   * order once appended to the empty value; an empty one does not, because
   * appending an empty object leaves the sentinel, which is not a map.
   */
  lemma DomMapLaw(pairs: seq<(Json, Json)>)
    requires forall i | 0 <= i < |pairs| :: pairs[i].0.JString?
    requires DistinctKeys(StringKeyed(pairs))
    ensures DomOps().createMap.requires(pairs)
    ensures |pairs| > 0 ==> DomOps().readAsMap(DomOps().appendToPrefix(DomOps().empty, DomOps().createMap(pairs))) == Success(pairs)
    ensures |pairs| == 0 ==> DomOps().readAsMap(DomOps().appendToPrefix(DomOps().empty, DomOps().createMap(pairs))).Error?
  {
    CreateMapDistinct(pairs);
    var read := ReadAsMap(JObject(StringKeyed(pairs)));
    if |pairs| > 0 {
      assert read.value == pairs;
    }
  }

  /** ReadAsMap as evidently intended: the empty value is read as the empty map. */
  function ReadAsMapIntended(input: Json): (r: DataResult<seq<(Json, Json)>>)
    ensures input == Sentinel ==> r == Success([])
    ensures input != Sentinel ==> r == ReadAsMap(input)
  {
    if input == Sentinel then Success([]) else ReadAsMap(input)
  }

  /** The node backend with the intended ReadAsMap. */
  function DomOpsIntended(): Ops<Json>
  {
    DomOps().(readAsMap := ReadAsMapIntended)
  }

  /** With the intended ReadAsMap every map with distinct string keys, the empty one included, is read back. */
  lemma DomMapLawIntended(pairs: seq<(Json, Json)>)
    requires forall i | 0 <= i < |pairs| :: pairs[i].0.JString?
    requires DistinctKeys(StringKeyed(pairs))
    ensures DomOpsIntended().createMap.requires(pairs)
    ensures DomOpsIntended().readAsMap(DomOpsIntended().appendToPrefix(DomOpsIntended().empty, DomOpsIntended().createMap(pairs))) == Success(pairs)
  {
    DomMapLaw(pairs);
  }
}
