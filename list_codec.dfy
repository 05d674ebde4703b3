/**
 * ListCodec<TElement> (Codecs/ListCodec.cs): a list codec over the
 * interface's ReadList / CreateEmptyList / AddToList operations.
 *
 * Decode drives ReadList with a consumer that parses each element into a
 * DecodeState and records the first failure; Encode is a loop adding each
 * encoded element to a list. The methods are proved equal to the functions
 * `ListDecodeSpec` and `ListEncodeSpec`, which the codec value uses.
 */
module ListCodecs {
  import opened Results
  import opened DynamicOps
  import opened Codecs

  // ---------------------------------------------------------------- decoding

  /**
   * The parse of a sequence of elements, left to right, stopping at the first
   * element that does not parse: the consumer records that failure and
   * ignores the rest.
   */
  function ParseAll<T, F>(codec: Codec<T, F>, ops: Ops<F>, items: seq<F>): DataResult<seq<T>>
    requires ParsesUntilFailure(codec, ops, items)
    decreases |items|, 1
  {
    if |items| == 0 then Success([])
    else
      var init := ParseAll(codec, ops, items[..|items| - 1]);
      if init.Error? then init
      else
        var last := codec.Parse(ops, items[|items| - 1]);
        if last.Error? then Error(last.message, None) else Success(init.value + [last.value])
  }

  /** The consumer calls the element codec on every element up to the first failure. */
  ghost predicate ParsesUntilFailure<T, F>(codec: Codec<T, F>, ops: Ops<F>, items: seq<F>)
    decreases |items|, 0
  {
    |items| == 0
    || (ParsesUntilFailure(codec, ops, items[..|items| - 1])
        && (ParseAll(codec, ops, items[..|items| - 1]).Success? ==> codec.decode.requires(ops, items[|items| - 1])))
  }

  /** Every element is in the element codec's domain and decodes. */
  ghost predicate AllParse<T, F>(codec: Codec<T, F>, ops: Ops<F>, items: seq<F>)
  {
    forall i | 0 <= i < |items| :: codec.decode.requires(ops, items[i]) && codec.decode(ops, items[i]).Success?
  }

  lemma {:induction false} AllParseDefined<T, F>(codec: Codec<T, F>, ops: Ops<F>, items: seq<F>)
    requires AllParse(codec, ops, items)
    ensures ParsesUntilFailure(codec, ops, items)
    ensures ParseAll(codec, ops, items).Success?
    ensures |ParseAll(codec, ops, items).value| == |items|
    ensures forall i | 0 <= i < |items| :: ParseAll(codec, ops, items).value[i] == codec.decode(ops, items[i]).value.0
    decreases |items|
  {
    if |items| > 0 {
      var init := items[..|items| - 1];
      assert AllParse(codec, ops, init) by {
        forall i | 0 <= i < |init| ensures codec.decode.requires(ops, init[i]) && codec.decode(ops, init[i]).Success? {
          assert init[i] == items[i];
        }
      }
      AllParseDefined(codec, ops, init);
    }
  }

  /**
   * The parse succeeds exactly when every element decodes, and then holds
   * every decoded element in order.
   */
  lemma {:induction false} ParseAllSucceedsIff<T, F>(codec: Codec<T, F>, ops: Ops<F>, items: seq<F>)
    requires ParsesUntilFailure(codec, ops, items)
    ensures ParseAll(codec, ops, items).Success? <==> AllParse(codec, ops, items)
    decreases |items|
  {
    if AllParse(codec, ops, items) {
      AllParseDefined(codec, ops, items);
    } else if |items| > 0 {
      var init := items[..|items| - 1];
      ParseAllSucceedsIff(codec, ops, init);
      if AllParse(codec, ops, init) {
        AllParseDefined(codec, ops, init);
        assert !(codec.decode.requires(ops, items[|items| - 1]) && codec.decode(ops, items[|items| - 1]).Success?) by {
          if codec.decode.requires(ops, items[|items| - 1]) && codec.decode(ops, items[|items| - 1]).Success? {
            forall i | 0 <= i < |items| ensures codec.decode.requires(ops, items[i]) && codec.decode(ops, items[i]).Success? {
              if i < |init| { assert items[i] == init[i]; }
            }
          }
        }
      }
    }
  }

  /**
   * A failed parse carries the message of the first element that does not
   * decode; every element before it decodes.
   */
  lemma {:induction false} ParseAllFirstFailure<T, F>(codec: Codec<T, F>, ops: Ops<F>, items: seq<F>)
    requires ParsesUntilFailure(codec, ops, items)
    requires ParseAll(codec, ops, items).Error?
    ensures exists k | 0 <= k < |items| ::
      AllParse(codec, ops, items[..k])
      && codec.decode.requires(ops, items[k])
      && codec.decode(ops, items[k]).Error?
      && ParseAll(codec, ops, items) == Error(codec.decode(ops, items[k]).message, None)
    decreases |items|
  {
    var n := |items|;
    var init := items[..n - 1];
    assert items[..n - 1] == init;
    if ParseAll(codec, ops, init).Error? {
      ParseAllFirstFailure(codec, ops, init);
      var k :| 0 <= k < |init| && AllParse(codec, ops, init[..k]) && codec.decode.requires(ops, init[k])
        && codec.decode(ops, init[k]).Error? && ParseAll(codec, ops, init) == Error(codec.decode(ops, init[k]).message, None);
      assert init[..k] == items[..k];
      assert init[k] == items[k];
    } else {
      ParseAllSucceedsIff(codec, ops, init);
      assert items[..n - 1] == init;
    }
  }

  /**
   * `Decode` as a function: ReadList's failure (message only), else the first
   * element failure (message only), else every element paired with the
   * untouched input.
   */
  function ListDecodeSpec<T, F>(codec: Codec<T, F>, ops: Ops<F>, input: F): (r: DataResult<(seq<T>, F)>)
    requires ListDecodes(codec, ops, input)
    ensures ops.readList(input).Error? ==> r == Error(ops.readList(input).message, None)
    ensures r.Success? ==> r.value.1 == input
  {
    match ops.readList(input)
    case Error(m, _) => Error(m, None)
    case Success(items) =>
      var elements := ParseAll(codec, ops, items);
      if elements.Error? then Error(elements.message, None) else Success((elements.value, input))
  }

  ghost predicate ListDecodes<T, F>(codec: Codec<T, F>, ops: Ops<F>, input: F)
  {
    ops.readList(input).Success? ==> ParsesUntilFailure(codec, ops, ops.readList(input).value)
  }

  /** ListCodec's `DecodeState`: the elements decoded so far and the recorded failure. */
  class DecodeState<T> {
    var elements: seq<T>
    var errorStatus: DataResult<seq<T>>

    /** A fresh state holds no elements and a success (the source stores `default`). */
    constructor ()
      ensures elements == [] && errorStatus == Success([])
    {
      elements := [];
      errorStatus := Success([]);
    }

    predicate IsError()
      reads this
    {
      errorStatus.Error?
    }

    function ErrorMessage(): string
      reads this
    {
      errorStatus.ErrorMessage()
    }

    method Add(item: T)
      modifies this
      ensures elements == old(elements) + [item] && errorStatus == old(errorStatus)
    {
      elements := elements + [item];
    }
  }

  /**
   * `ListConsumer.Accept`: nothing happens once a failure is recorded;
   * otherwise the element is parsed and either appended or recorded as the
   * failure (its partial wrapped in a one-element list).
   */
  method Accept<T, F>(codec: Codec<T, F>, ops: Ops<F>, state: DecodeState<T>, item: F)
    requires !state.IsError() ==> codec.decode.requires(ops, item)
    modifies state
    ensures old(state.IsError()) ==> state.elements == old(state.elements) && state.errorStatus == old(state.errorStatus)
    ensures !old(state.IsError()) && codec.Parse(ops, item).Error? ==>
      state.elements == old(state.elements) && state.errorStatus == codec.Parse(ops, item).Map((result: T) => [result], None)
    ensures !old(state.IsError()) && codec.Parse(ops, item).Success? ==>
      state.elements == old(state.elements) + [codec.Parse(ops, item).value] && state.errorStatus == old(state.errorStatus)
  {
    if state.IsError() {
      return;
    }
    var decoded := codec.Parse(ops, item);
    if decoded.Error? {
      state.errorStatus := decoded.Map((result: T) => [result], None);
    } else {
      state.Add(decoded.GetOrThrow());
    }
  }

  /** `ListCodec.Decode`: ReadList feeds every element to the consumer. */
  method ListDecode<T, F>(codec: Codec<T, F>, ops: Ops<F>, input: F) returns (r: DataResult<(seq<T>, F)>)
    requires ListDecodes(codec, ops, input)
    ensures r == ListDecodeSpec(codec, ops, input)
  {
    var state := new DecodeState<T>();
    var listResult := ops.readList(input);
    if listResult.Success? {
      var items := listResult.value;
      var i := 0;
      while i < |items|
        invariant 0 <= i <= |items|
        invariant ParsesUntilFailure(codec, ops, items[..i])
        invariant state.IsError() <==> ParseAll(codec, ops, items[..i]).Error?
        invariant state.IsError() ==> state.errorStatus.message == ParseAll(codec, ops, items[..i]).message
        invariant !state.IsError() ==> state.elements == ParseAll(codec, ops, items[..i]).value
      {
        PrefixParses(codec, ops, items, i + 1);
        assert items[..i + 1][..i] == items[..i];
        Accept(codec, ops, state, items[i]);
        assert items[..i + 1][i] == items[i];
        i := i + 1;
      }
      assert items[..i] == items;
    }
    if listResult.Error? {
      return Fail(listResult.ErrorMessage(), None);
    }
    if state.IsError() {
      return Fail(state.ErrorMessage(), None);
    }
    return Success((state.elements, input));
  }

  /** The domain of a sequence covers every prefix of it. */
  lemma {:induction false} PrefixParses<T, F>(codec: Codec<T, F>, ops: Ops<F>, items: seq<F>, k: nat)
    requires ParsesUntilFailure(codec, ops, items)
    requires k <= |items|
    ensures ParsesUntilFailure(codec, ops, items[..k])
    decreases |items| - k
  {
    if k < |items| {
      assert items[..|items| - 1][..k] == items[..k];
      PrefixParses(codec, ops, items[..|items| - 1], k);
    } else {
      assert items[..k] == items;
    }
  }

  // ---------------------------------------------------------------- encoding

  /**
   * The state of the encode loop: `Stopped(r)` once it has returned `r`,
   * `Running(list)` while it holds `list`, the last AddToList result.
   */
  datatype EncodeState<F> = Stopped(result: DataResult<F>) | Running(list: DataResult<F>)

  /**
   * One iteration as written: an element that does not encode is returned;
   * otherwise the current list is taken with GetOrThrow (which throws when the
   * previous AddToList failed) and the element is added. The guard the
   * source places after AddToList tests the list it has just unwrapped, so it
   * never fires and an AddToList failure is not returned.
   */
  function EncodeStep<T, F>(codec: Codec<T, F>, ops: Ops<F>, state: EncodeState<F>, item: T): EncodeState<F>
    requires StepDefined(codec, ops, state, item)
  {
    match state
    case Stopped(_) => state
    case Running(list) =>
      var encoded := codec.EncodeStart(ops, item);
      if encoded.Error? then Stopped(encoded)
      else Running(ops.addToList(list.value, encoded.value))
  }

  ghost predicate StepDefined<T, F>(codec: Codec<T, F>, ops: Ops<F>, state: EncodeState<F>, item: T)
  {
    state.Running? ==>
      codec.encode.requires(item, ops, ops.empty)
      && (codec.EncodeStart(ops, item).Success? ==> state.list.Success?)
  }

  /** The loop state after the given elements, starting from CreateEmptyList. */
  function EncodeSteps<T, F>(codec: Codec<T, F>, ops: Ops<F>, items: seq<T>): EncodeState<F>
    requires StepsDefined(codec, ops, items)
    decreases |items|, 1
  {
    if |items| == 0 then Running(Success(ops.createEmptyList))
    else EncodeStep(codec, ops, EncodeSteps(codec, ops, items[..|items| - 1]), items[|items| - 1])
  }

  ghost predicate StepsDefined<T, F>(codec: Codec<T, F>, ops: Ops<F>, items: seq<T>)
    decreases |items|, 0
  {
    |items| == 0
    || (StepsDefined(codec, ops, items[..|items| - 1])
        && StepDefined(codec, ops, EncodeSteps(codec, ops, items[..|items| - 1]), items[|items| - 1]))
  }

  /** The source does not throw: every step is defined and the final list is a success. */
  ghost predicate ListEncodes<T, F>(codec: Codec<T, F>, ops: Ops<F>, items: seq<T>)
  {
    StepsDefined(codec, ops, items)
    && (EncodeSteps(codec, ops, items).Running? ==> EncodeSteps(codec, ops, items).list.Success?)
  }

  /**
   * `Encode` as written: the first element failure, or else `Success(prefix)`;
   * AppendToPrefix's result is discarded, so all that reaches the caller of
   * the built list is what AppendToPrefix wrote into the prefix in place.
   */
  function ListEncodeSpec<T, F>(codec: Codec<T, F>, ops: Ops<F>, items: seq<T>, prefix: F): DataResult<F>
    requires ListEncodes(codec, ops, items)
  {
    match EncodeSteps(codec, ops, items)
    case Stopped(r) => r
    case Running(list) => Success(ops.prefixAfterAppend(prefix, list.value))
  }

  /** `ListCodec.Encode`. */
  method ListEncode<T, F>(codec: Codec<T, F>, ops: Ops<F>, input: seq<T>, prefix: F) returns (r: DataResult<F>)
    requires ListEncodes(codec, ops, input)
    ensures r == ListEncodeSpec(codec, ops, input, prefix)
  {
    var list := Success(ops.createEmptyList);
    var i := 0;
    while i < |input|
      invariant 0 <= i <= |input|
      invariant StepsDefined(codec, ops, input[..i])
      invariant EncodeSteps(codec, ops, input[..i]) == Running(list)
    {
      PrefixEncodes(codec, ops, input, i + 1);
      assert input[..i + 1][..i] == input[..i];
      assert input[..i + 1][i] == input[i];
      var encoded := codec.EncodeStart(ops, input[i]);
      if encoded.Error? {
        StoppedStaysStopped(codec, ops, input, i + 1);
        assert input[..|input|] == input;
        return encoded;
      }
      var appendedValue := ops.addToList(list.GetOrThrow(), encoded.GetOrThrow());
      // The source returns `appendedValue` here when `list` is a failure, which
      // GetOrThrow has just excluded.
      list := appendedValue;
      i := i + 1;
    }
    assert input[..i] == input;
    var finalList := list.GetOrThrow();
    return Success(ops.prefixAfterAppend(prefix, finalList));
  }

  lemma {:induction false} PrefixEncodes<T, F>(codec: Codec<T, F>, ops: Ops<F>, items: seq<T>, k: nat)
    requires StepsDefined(codec, ops, items)
    requires k <= |items|
    ensures StepsDefined(codec, ops, items[..k])
    decreases |items| - k
  {
    if k < |items| {
      assert items[..|items| - 1][..k] == items[..k];
      PrefixEncodes(codec, ops, items[..|items| - 1], k);
    } else {
      assert items[..k] == items;
    }
  }

  /** Once the loop has returned, later elements change nothing. */
  lemma {:induction false} StoppedStaysStopped<T, F>(codec: Codec<T, F>, ops: Ops<F>, items: seq<T>, k: nat)
    requires StepsDefined(codec, ops, items)
    requires 0 < k <= |items|
    requires StepsDefined(codec, ops, items[..k])
    requires EncodeSteps(codec, ops, items[..k]).Stopped?
    ensures EncodeSteps(codec, ops, items) == EncodeSteps(codec, ops, items[..k])
    decreases |items| - k
  {
    if k == |items| {
      assert items[..k] == items;
    } else {
      var init := items[..|items| - 1];
      assert init[..k] == items[..k];
      StoppedStaysStopped(codec, ops, init, k);
      assert items[..|items| - 1] == init;
    }
  }

  /**
   * Encoding stops at the first element that does not encode and returns its
   * failure: no later element is looked at.
   */
  lemma {:induction false} ListEncodeStopsAtFirstFailure<T, F>(codec: Codec<T, F>, ops: Ops<F>, items: seq<T>, k: nat, prefix: F)
    requires k < |items|
    requires codec.encode.requires(items[k], ops, ops.empty) && codec.EncodeStart(ops, items[k]).Error?
    requires AddsSucceed(codec, ops, items[..k])
    ensures StepsDefined(codec, ops, items[..k + 1])
    ensures EncodeSteps(codec, ops, items[..k + 1]) == Stopped(codec.EncodeStart(ops, items[k]))
    ensures StepsDefined(codec, ops, items) ==> ListEncodes(codec, ops, items)
    ensures StepsDefined(codec, ops, items) ==> ListEncodeSpec(codec, ops, items, prefix) == codec.EncodeStart(ops, items[k])
  {
    AddsSucceedRunning(codec, ops, items[..k]);
    assert items[..k + 1][..k] == items[..k];
    if StepsDefined(codec, ops, items) {
      StoppedStaysStopped(codec, ops, items, k + 1);
    }
  }

  /**
   * Every element encodes and every AddToList on the way succeeds (the
   * condition under which the as-written loop never throws).
   */
  ghost predicate AddsSucceed<T, F>(codec: Codec<T, F>, ops: Ops<F>, items: seq<T>)
    decreases |items|, 0
  {
    |items| == 0
    || (AddsSucceed(codec, ops, items[..|items| - 1])
        && Encodes(codec, ops, items[|items| - 1])
        && (var list := BuiltList(codec, ops, items[..|items| - 1]);
            ops.addToList(list, codec.EncodeStart(ops, items[|items| - 1]).value).Success?))
  }

  /** The list AddToList has built from the encoded elements. */
  function BuiltList<T, F>(codec: Codec<T, F>, ops: Ops<F>, items: seq<T>): F
    requires AddsSucceed(codec, ops, items)
    decreases |items|, 1
  {
    if |items| == 0 then ops.createEmptyList
    else ops.addToList(BuiltList(codec, ops, items[..|items| - 1]), codec.EncodeStart(ops, items[|items| - 1]).value).value
  }

  lemma {:induction false} AddsSucceedRunning<T, F>(codec: Codec<T, F>, ops: Ops<F>, items: seq<T>)
    requires AddsSucceed(codec, ops, items)
    ensures StepsDefined(codec, ops, items)
    ensures EncodeSteps(codec, ops, items) == Running(Success(BuiltList(codec, ops, items)))
    decreases |items|
  {
    if |items| > 0 {
      AddsSucceedRunning(codec, ops, items[..|items| - 1]);
    }
  }

  /** When nothing fails, the as-written encode returns the prefix as AppendToPrefix left it. */
  lemma ListEncodeKeepsPrefix<T, F>(codec: Codec<T, F>, ops: Ops<F>, items: seq<T>, prefix: F)
    requires AddsSucceed(codec, ops, items)
    ensures ListEncodes(codec, ops, items)
    ensures ListEncodeSpec(codec, ops, items, prefix) == Success(ops.prefixAfterAppend(prefix, BuiltList(codec, ops, items)))
  {
    AddsSucceedRunning(codec, ops, items);
  }

  /**
   * A failing AddToList on the last element is not returned: the loop keeps
   * the failure as its list and the final GetOrThrow throws.
   */
  lemma AddFailureIsNotReturned<T, F>(codec: Codec<T, F>, ops: Ops<F>, items: seq<T>)
    requires |items| > 0 && AddsSucceed(codec, ops, items[..|items| - 1])
    requires Encodes(codec, ops, items[|items| - 1])
    requires ops.addToList(BuiltList(codec, ops, items[..|items| - 1]), codec.EncodeStart(ops, items[|items| - 1]).value).Error?
    ensures StepsDefined(codec, ops, items)
    ensures !ListEncodes(codec, ops, items)
  {
    AddsSucceedRunning(codec, ops, items[..|items| - 1]);
  }

  /** `new ListCodec<T>(codec)` as written, used by `ForList`. */
  function ListCodec<T, F>(codec: Codec<T, F>): Codec<seq<T>, F>
  {
    Codec(
      (input, ops, prefix) requires ListEncodes(codec, ops, input) => ListEncodeSpec(codec, ops, input, prefix),
      (ops, input) requires ListDecodes(codec, ops, input) => ListDecodeSpec(codec, ops, input))
  }

  // ------------------------------------------------------ intended encoding

  /**
   * The loop as evidently intended: the first failure, of an element or of
   * AddToList, is returned; otherwise the list is added to the prefix and the
   * result of AppendToPrefix is returned.
   */
  function BuildListIntended<T, F>(codec: Codec<T, F>, ops: Ops<F>, items: seq<T>): (r: DataResult<F>)
    requires forall i | 0 <= i < |items| :: codec.encode.requires(items[i], ops, ops.empty)
    ensures AddsSucceed(codec, ops, items) ==> r == Success(BuiltList(codec, ops, items))
    decreases |items|
  {
    if |items| == 0 then Success(ops.createEmptyList)
    else
      var init := BuildListIntended(codec, ops, items[..|items| - 1]);
      if init.Error? then init
      else
        var encoded := codec.EncodeStart(ops, items[|items| - 1]);
        if encoded.Error? then encoded else ops.addToList(init.value, encoded.value)
  }

  function ListEncodeIntended<T, F>(codec: Codec<T, F>, ops: Ops<F>, items: seq<T>, prefix: F): (r: DataResult<F>)
    requires forall i | 0 <= i < |items| :: codec.encode.requires(items[i], ops, ops.empty)
    ensures AddsSucceed(codec, ops, items) ==> r == Success(ops.appendToPrefix(prefix, BuiltList(codec, ops, items)))
    ensures BuildListIntended(codec, ops, items).Error? ==> r == BuildListIntended(codec, ops, items)
  {
    var list := BuildListIntended(codec, ops, items);
    if list.Error? then list else Success(ops.appendToPrefix(prefix, list.value))
  }

  function ListCodecIntended<T, F>(codec: Codec<T, F>): Codec<seq<T>, F>
  {
    Codec(
      (input: seq<T>, ops: Ops<F>, prefix: F) requires forall i | 0 <= i < |input| :: codec.encode.requires(input[i], ops, ops.empty) =>
        ListEncodeIntended(codec, ops, input, prefix),
      (ops, input) requires ListDecodes(codec, ops, input) => ListDecodeSpec(codec, ops, input))
  }

  /** The intended loop returns the failure of an AddToList on the last element. */
  lemma AddFailureIsReturnedIntended<T, F>(codec: Codec<T, F>, ops: Ops<F>, items: seq<T>, prefix: F)
    requires |items| > 0 && AddsSucceed(codec, ops, items[..|items| - 1])
    requires Encodes(codec, ops, items[|items| - 1])
    requires forall i | 0 <= i < |items| :: codec.encode.requires(items[i], ops, ops.empty)
    requires ops.addToList(BuiltList(codec, ops, items[..|items| - 1]), codec.EncodeStart(ops, items[|items| - 1]).value).Error?
    ensures ListEncodeIntended(codec, ops, items, prefix)
            == ops.addToList(BuiltList(codec, ops, items[..|items| - 1]), codec.EncodeStart(ops, items[|items| - 1]).value)
  {
    var init := items[..|items| - 1];
    assert forall i | 0 <= i < |init| :: init[i] == items[i];
  }

  /** Every element encodes from the empty value. */
  ghost predicate AllEncode<T, F>(codec: Codec<T, F>, ops: Ops<F>, items: seq<T>)
  {
    forall i | 0 <= i < |items| :: codec.encode.requires(items[i], ops, ops.empty) && codec.EncodeStart(ops, items[i]).Success?
  }

  /** The encodings of the elements, in order. */
  function Encodings<T, F>(codec: Codec<T, F>, ops: Ops<F>, items: seq<T>): (r: seq<F>)
    requires AllEncode(codec, ops, items)
    ensures |r| == |items|
    ensures forall i | 0 <= i < |items| :: r[i] == codec.EncodeStart(ops, items[i]).value
    ensures forall i | 0 <= i < |items| && RoundTrips(codec, ops, items[i]) ::
      codec.decode.requires(ops, r[i]) && codec.Parse(ops, r[i]) == Success(items[i])
  {
    seq(|items|, i requires 0 <= i < |items| => codec.EncodeStart(ops, items[i]).value)
  }

  /**
   * The list law of a backend for given elements: adding them one by one to
   * CreateEmptyList succeeds, and ReadList of the list added to the empty
   * value feeds back exactly those elements.
   */
  ghost predicate ListLaw<T, F>(codec: Codec<T, F>, ops: Ops<F>, items: seq<T>)
  {
    AddsSucceed(codec, ops, items)
    && AllEncode(codec, ops, items)
    && ops.readList(ops.appendToPrefix(ops.empty, BuiltList(codec, ops, items))) == Success(Encodings(codec, ops, items))
  }

  /** With the intended encode, every list of round-tripping elements round-trips. */
  lemma ListIntendedRoundTrips<T, F>(codec: Codec<T, F>, ops: Ops<F>, items: seq<T>)
    requires forall i | 0 <= i < |items| :: RoundTrips(codec, ops, items[i])
    requires ListLaw(codec, ops, items)
    ensures RoundTrips(ListCodecIntended(codec), ops, items)
  {
    var encodings := Encodings(codec, ops, items);
    forall i | 0 <= i < |encodings|
      ensures codec.decode.requires(ops, encodings[i]) && codec.decode(ops, encodings[i]).Success?
    {
      assert RoundTrips(codec, ops, items[i]);
    }
    AllParseDefined(codec, ops, encodings);
    var parsed := ParseAll(codec, ops, encodings).value;
    assert parsed == items by {
      forall i | 0 <= i < |items| ensures parsed[i] == items[i] {
        assert RoundTrips(codec, ops, items[i]);
      }
    }
  }
}
