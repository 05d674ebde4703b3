/**
 * EnumerableCodec<T> (Codecs/EnumerableCodec.cs): a sequence codec over the
 * ReadAsStream / CreateList operations. Both directions are loops that stop
 * at the first element failure; the methods are proved equal to the
 * functions the codec value uses.
 */
module EnumerableCodecs {
  import opened Results
  import opened DynamicOps
  import opened Codecs
  import opened ListCodecs

  /**
   * The input after the loop's `RemoveFromInput(input, item)` calls, whose
   * results are discarded: it returns the input it was given, which the node
   * backend changes in place.
   */
  function RemoveAll<F>(ops: Ops<F>, input: F, items: seq<F>): F
    decreases |items|
  {
    if |items| == 0 then input else ops.removeValue(RemoveAll(ops, input, items[..|items| - 1]), items[|items| - 1])
  }

  ghost predicate EnumerableDecodes<T, F>(codec: Codec<T, F>, ops: Ops<F>, input: F)
  {
    ops.readAsStream(input).Success? ==> ParsesUntilFailure(codec, ops, ops.readAsStream(input).value)
  }

  /**
   * `Decode`: a stream failure is "Not a valid array: <msg>"; the first element
   * failure is "Failed to decode element: <msg>", with no partial; otherwise
   * the parsed elements in stream order.
   */
  function EnumerableDecodeSpec<T, F>(codec: Codec<T, F>, ops: Ops<F>, input: F): (r: DataResult<(seq<T>, F)>)
    requires EnumerableDecodes(codec, ops, input)
    ensures ops.readAsStream(input).Error? ==> r == Error("Not a valid array: " + ops.readAsStream(input).message, None)
    ensures ops.readAsStream(input).Success? ==>
      var items := ops.readAsStream(input).value;
      (ParseAll(codec, ops, items).Error? ==> r == Error("Failed to decode element: " + ParseAll(codec, ops, items).message, None))
      && (ParseAll(codec, ops, items).Success? ==> r == Success((ParseAll(codec, ops, items).value, RemoveAll(ops, input, items))))
  {
    match ops.readAsStream(input)
    case Error(m, _) => Error("Not a valid array: " + m, None)
    case Success(items) =>
      var elements := ParseAll(codec, ops, items);
      if elements.Error? then Error("Failed to decode element: " + elements.message, None)
      else Success((elements.value, RemoveAll(ops, input, items)))
  }

  /** `EnumerableCodec.Decode`. */
  method EnumerableDecode<T, F>(codec: Codec<T, F>, ops: Ops<F>, input: F) returns (r: DataResult<(seq<T>, F)>)
    requires EnumerableDecodes(codec, ops, input)
    ensures r == EnumerableDecodeSpec(codec, ops, input)
  {
    var streamResult := ops.readAsStream(input);
    if streamResult.Error? {
      return Fail("Not a valid array: " + streamResult.ErrorMessage(), None);
    }
    var stream := streamResult.value;
    var result: seq<T> := [];
    var remaining := input;
    var i := 0;
    while i < |stream|
      invariant 0 <= i <= |stream|
      invariant ParsesUntilFailure(codec, ops, stream[..i])
      invariant ParseAll(codec, ops, stream[..i]) == Success(result)
      invariant remaining == RemoveAll(ops, input, stream[..i])
    {
      PrefixParses(codec, ops, stream, i + 1);
      assert stream[..i + 1][..i] == stream[..i];
      assert stream[..i + 1][i] == stream[i];
      var decoded := codec.Parse(ops, stream[i]);
      if decoded.Error? {
        ParseAllStaysFailed(codec, ops, stream, i + 1);
        assert stream[..|stream|] == stream;
        return Fail("Failed to decode element: " + decoded.ErrorMessage(), None);
      }
      // The source re-tests `decoded.IsError` here, which the return above excludes.
      result := result + [decoded.GetOrThrow()];
      remaining := ops.removeValue(remaining, stream[i]);
      i := i + 1;
    }
    assert stream[..i] == stream;
    return Success((result, remaining));
  }

  /** Once the parse of a prefix has failed, the parse of the whole has the same failure. */
  lemma {:induction false} ParseAllStaysFailed<T, F>(codec: Codec<T, F>, ops: Ops<F>, items: seq<F>, k: nat)
    requires ParsesUntilFailure(codec, ops, items)
    requires 0 < k <= |items|
    requires ParsesUntilFailure(codec, ops, items[..k])
    requires ParseAll(codec, ops, items[..k]).Error?
    ensures ParseAll(codec, ops, items) == ParseAll(codec, ops, items[..k])
    decreases |items| - k
  {
    if k == |items| {
      assert items[..k] == items;
    } else {
      var init := items[..|items| - 1];
      assert init[..k] == items[..k];
      ParseAllStaysFailed(codec, ops, init, k);
    }
  }

  // ---------------------------------------------------------------- encoding

  /**
   * The encodings of the elements in input order, or "Failed to encode
   * element: <msg>" for the first element that does not encode.
   */
  function EncodeAll<T, F>(codec: Codec<T, F>, ops: Ops<F>, items: seq<T>): DataResult<seq<F>>
    requires EncodesUntilFailure(codec, ops, items)
    decreases |items|, 1
  {
    if |items| == 0 then Success([])
    else
      var init := EncodeAll(codec, ops, items[..|items| - 1]);
      if init.Error? then init
      else
        var encoded := codec.EncodeStart(ops, items[|items| - 1]);
        if encoded.Error? then Error("Failed to encode element: " + encoded.message, None)
        else Success(init.value + [encoded.value])
  }

  ghost predicate EncodesUntilFailure<T, F>(codec: Codec<T, F>, ops: Ops<F>, items: seq<T>)
    decreases |items|, 0
  {
    |items| == 0
    || (EncodesUntilFailure(codec, ops, items[..|items| - 1])
        && (EncodeAll(codec, ops, items[..|items| - 1]).Success? ==> codec.encode.requires(items[|items| - 1], ops, ops.empty)))
  }

  /**
   * `Encode`: CreateList of the encodings in input order. The prefix plays no
   * part in the result: the loop's AppendToPrefix calls are discarded.
   */
  function EnumerableEncodeSpec<T, F>(codec: Codec<T, F>, ops: Ops<F>, items: seq<T>, prefix: F): (r: DataResult<F>)
    requires EncodesUntilFailure(codec, ops, items)
    ensures r.Success? <==> EncodeAll(codec, ops, items).Success?
    ensures r.Success? ==> r.value == ops.createList(EncodeAll(codec, ops, items).value)
    ensures r.Error? ==> r == Error(EncodeAll(codec, ops, items).message, None)
  {
    var encoded := EncodeAll(codec, ops, items);
    if encoded.Error? then Error(encoded.message, None) else Success(ops.createList(encoded.value))
  }

  /** `EnumerableCodec.Encode`. */
  method EnumerableEncode<T, F>(codec: Codec<T, F>, ops: Ops<F>, input: seq<T>, prefix: F) returns (r: DataResult<F>)
    requires EncodesUntilFailure(codec, ops, input)
    ensures r == EnumerableEncodeSpec(codec, ops, input, prefix)
  {
    var encodedElements: seq<F> := [];
    var i := 0;
    while i < |input|
      invariant 0 <= i <= |input|
      invariant EncodesUntilFailure(codec, ops, input[..i])
      invariant EncodeAll(codec, ops, input[..i]) == Success(encodedElements)
    {
      PrefixEncodesUntilFailure(codec, ops, input, i + 1);
      assert input[..i + 1][..i] == input[..i];
      assert input[..i + 1][i] == input[i];
      var encoded := codec.EncodeStart(ops, input[i]);
      if encoded.Error? {
        EncodeAllStaysFailed(codec, ops, input, i + 1);
        assert input[..|input|] == input;
        return Fail("Failed to encode element: " + encoded.ErrorMessage(), None);
      }
      var result := encoded.GetOrThrow();
      encodedElements := encodedElements + [result];
      // `ops.AppendToPrefix(prefix, result)` is called here and its result dropped.
      i := i + 1;
    }
    assert input[..i] == input;
    return Success(ops.createList(encodedElements));
  }

  lemma {:induction false} PrefixEncodesUntilFailure<T, F>(codec: Codec<T, F>, ops: Ops<F>, items: seq<T>, k: nat)
    requires EncodesUntilFailure(codec, ops, items)
    requires k <= |items|
    ensures EncodesUntilFailure(codec, ops, items[..k])
    decreases |items| - k
  {
    if k < |items| {
      assert items[..|items| - 1][..k] == items[..k];
      PrefixEncodesUntilFailure(codec, ops, items[..|items| - 1], k);
    } else {
      assert items[..k] == items;
    }
  }

  lemma {:induction false} EncodeAllStaysFailed<T, F>(codec: Codec<T, F>, ops: Ops<F>, items: seq<T>, k: nat)
    requires EncodesUntilFailure(codec, ops, items)
    requires 0 < k <= |items|
    requires EncodesUntilFailure(codec, ops, items[..k])
    requires EncodeAll(codec, ops, items[..k]).Error?
    ensures EncodeAll(codec, ops, items) == EncodeAll(codec, ops, items[..k])
    decreases |items| - k
  {
    if k == |items| {
      assert items[..k] == items;
    } else {
      var init := items[..|items| - 1];
      assert init[..k] == items[..k];
      EncodeAllStaysFailed(codec, ops, init, k);
    }
  }

  /** When every element encodes, EncodeAll is the sequence of their encodings. */
  lemma {:induction false} AllEncodeEncodeAll<T, F>(codec: Codec<T, F>, ops: Ops<F>, items: seq<T>)
    requires AllEncode(codec, ops, items)
    ensures EncodesUntilFailure(codec, ops, items)
    ensures EncodeAll(codec, ops, items) == Success(Encodings(codec, ops, items))
    decreases |items|
  {
    if |items| > 0 {
      var init := items[..|items| - 1];
      assert AllEncode(codec, ops, init) by {
        forall i | 0 <= i < |init|
          ensures codec.encode.requires(init[i], ops, ops.empty) && codec.EncodeStart(ops, init[i]).Success?
        {
          assert init[i] == items[i];
        }
      }
      AllEncodeEncodeAll(codec, ops, init);
      assert Encodings(codec, ops, items) == Encodings(codec, ops, init) + [codec.EncodeStart(ops, items[|items| - 1]).value];
    }
  }

  /** `new EnumerableCodec<T>(codec)`. */
  function EnumerableCodec<T, F>(codec: Codec<T, F>): Codec<seq<T>, F>
  {
    Codec(
      (input, ops, prefix) requires EncodesUntilFailure(codec, ops, input) => EnumerableEncodeSpec(codec, ops, input, prefix),
      (ops, input) requires EnumerableDecodes(codec, ops, input) => EnumerableDecodeSpec(codec, ops, input))
  }

  /** The stream law of a backend for given elements: ReadAsStream gives back what CreateList was given. */
  ghost predicate StreamLaw<F>(ops: Ops<F>, elements: seq<F>)
  {
    ops.readAsStream(ops.createList(elements)) == Success(elements)
  }

  /** A sequence whose elements round-trip round-trips, in order and with nothing extra. */
  lemma EnumerableRoundTrips<T, F>(codec: Codec<T, F>, ops: Ops<F>, items: seq<T>)
    requires forall i | 0 <= i < |items| :: RoundTrips(codec, ops, items[i])
    requires AllEncode(codec, ops, items) ==> StreamLaw(ops, Encodings(codec, ops, items))
    ensures RoundTrips(EnumerableCodec(codec), ops, items)
  {
    assert AllEncode(codec, ops, items) by {
      forall i | 0 <= i < |items|
        ensures codec.encode.requires(items[i], ops, ops.empty) && codec.EncodeStart(ops, items[i]).Success?
      {
        assert RoundTrips(codec, ops, items[i]);
      }
    }
    AllEncodeEncodeAll(codec, ops, items);
    var encodings := Encodings(codec, ops, items);
    forall i | 0 <= i < |encodings|
      ensures codec.decode.requires(ops, encodings[i]) && codec.decode(ops, encodings[i]).Success?
    {
      assert RoundTrips(codec, ops, items[i]);
    }
    AllParseDefined(codec, ops, encodings);
    var parsed := ParseAll(codec, ops, encodings).value;
    assert parsed == items by {
      forall i | 0 <= i < |items| ensures parsed[i] == items[i] {
        assert RoundTrips(codec, ops, items[i]);
      }
    }
    var out := ops.createList(encodings);
    assert EnumerableCodec(codec).EncodeStart(ops, items) == Success(out);
    assert ops.readAsStream(out) == Success(encodings);
    assert EnumerableCodec(codec).decode(ops, out) == Success((items, RemoveAll(ops, out, encodings)));
  }
}
