/**
 * Field mappers Fm1 ... Fm5 (Codecs/RecordCodec/FieldMapper.cs): record
 * mappers over one to five fields whose constructor is set afterwards by
 * `WithCtor`. Unlike the record codecs, Fm2 ... Fm5 decode every field against
 * the same original input and return that input as the remainder, and Encode
 * goes through a record builder.
 *
 * The builder is the list of `(key, encoded result)` entries added to it, in
 * order; `ops.build` is its `Build(prefix)`. FieldCodecs.cs declares no
 * builder overload of a field's Encode, so a field adds itself as
 * `Add(CreateString(name), codec.EncodeStart(getter(input)))`.
 */
module FieldMappers {
  import opened Results
  import opened DynamicOps
  import opened Codecs
  import opened FieldCodecs
  import opened RecordCodecs

  /** The entry a field adds to the builder for record `x`. */
  function Entry<T, V, F>(f: FieldCodec<T, V, F>, x: T, ops: Ops<F>): (e: (F, DataResult<F>))
    requires f.codec.encode.requires(f.getter(x), ops, ops.empty)
    ensures e.0 == ops.createString(f.name)
    ensures e.1 == f.codec.encode(f.getter(x), ops, ops.empty)
    ensures StringsRoundTrip(ops) ==> ops.getString(e.0) == Success(f.name)
    ensures RoundTrips(f.codec, ops, f.getter(x)) ==>
      e.1.Success? && f.codec.decode.requires(ops, e.1.value) && f.codec.Parse(ops, e.1.value) == Success(f.getter(x))
  {
    (ops.createString(f.name), f.codec.EncodeStart(ops, f.getter(x)))
  }

  ghost predicate EntryDefined<T, V, F>(f: FieldCodec<T, V, F>, x: T, ops: Ops<F>)
  {
    f.codec.encode.requires(f.getter(x), ops, ops.empty)
  }

  /** What a field's codec writes for record `x`, when it succeeds. */
  ghost function Encoded<T, V, F>(f: FieldCodec<T, V, F>, x: T, ops: Ops<F>): F
    requires Encodes(f.codec, ops, f.getter(x))
  {
    f.codec.EncodeStart(ops, f.getter(x)).value
  }

  class Fm1<T, A, F> {
    const f1: FieldCodec<T, A, F>
    var ctor: Option<A -> T>

    constructor (f1: FieldCodec<T, A, F>)
      ensures this.f1 == f1 && ctor == None
    {
      this.f1 := f1;
      ctor := None;
    }

    /** `WithCtor`: stores the constructor and returns the same mapper. */
    method WithCtor(c: A -> T) returns (self: Fm1<T, A, F>)
      modifies this
      ensures ctor == Some(c) && self == this
    {
      ctor := Some(c);
      self := this;
    }

    /**
     * `Map` calls the constructor on a failure's partial as well as on a
     * success, so the constructor must be set for every decode.
     */
    ghost predicate Decodes(ops: Ops<F>, input: F)
      reads this
    {
      FieldDecodes(f1, ops, input) && ctor.Some?
    }

    /**
     * `Decode`: the field's result mapped through the constructor, keeping the
     * field's own remainder. A field failure is modelled as carrying no
     * partial, so the constructor's result on the zero-filled partial is not
     * recorded.
     */
    function Decode(ops: Ops<F>, input: F): (r: DataResult<(T, F)>)
      reads this
      requires Decodes(ops, input)
      ensures var d1 := FieldDecode(f1, ops, input);
        (d1.Error? ==> r == Error(d1.message, None))
        && (d1.Success? ==> r == Success((ctor.value(d1.value.0), d1.value.1)))
    {
      var d1 := FieldDecode(f1, ops, input);
      if d1.Error? then Fail(d1.ErrorMessage(), None)
      else
        var c := ctor.value;
        d1.Map((result: (A, F)) => (c(result.0), result.1), None)
    }

    ghost predicate Encodes(x: T, ops: Ops<F>)
    {
      EntryDefined(f1, x, ops)
    }

    /** `Encode`: a fresh builder with the field's entry, built onto the prefix. */
    function Encode(x: T, ops: Ops<F>, prefix: F): (r: DataResult<F>)
      requires Encodes(x, ops)
      ensures r == ops.build([(ops.createString(f1.name), f1.codec.EncodeStart(ops, f1.getter(x)))], prefix)
    {
      ops.build([Entry(f1, x, ops)], prefix)
    }
  }

  /**
   * Fm1 reads its record back from any output in which the builder stored the
   * field's encoding under its key, with the field's own remainder.
   */
  lemma Fm1RoundTrips<T, A, F>(m: Fm1<T, A, F>, ops: Ops<F>, x: T)
    requires m.ctor.Some? && m.ctor.value(m.f1.getter(x)) == x
    requires RoundTrips(m.f1.codec, ops, m.f1.getter(x))
    requires m.Encode(x, ops, ops.empty).Success?
    requires StoresUnder(ops, m.Encode(x, ops, ops.empty).value, m.f1.name, Encoded(m.f1, x, ops))
    ensures m.Decodes(ops, m.Encode(x, ops, ops.empty).value)
    ensures var out := m.Encode(x, ops, ops.empty).value;
      m.Decode(ops, out) == Success((x, ops.removeValue(out, ops.createString(m.f1.name))))
  {
    FieldReadsBack(m.f1, ops, x, m.Encode(x, ops, ops.empty).value);
  }

  class Fm2<T, A, B, F> {
    const f1: FieldCodec<T, A, F>
    const f2: FieldCodec<T, B, F>
    var ctor: Option<(A, B) -> T>

    constructor (f1: FieldCodec<T, A, F>, f2: FieldCodec<T, B, F>)
      ensures this.f1 == f1 && this.f2 == f2 && ctor == None
    {
      this.f1 := f1;
      this.f2 := f2;
      ctor := None;
    }

    /** `WithCtor`: stores the constructor and returns the same mapper. */
    method WithCtor(c: (A, B) -> T) returns (self: Fm2<T, A, B, F>)
      modifies this
      ensures ctor == Some(c) && self == this
    {
      ctor := Some(c);
      self := this;
    }

    ghost predicate Decodes(ops: Ops<F>, input: F)
      reads this
    {
      FieldDecodes(f1, ops, input)
      && (FieldDecode(f1, ops, input).Success? ==> FieldDecodes(f2, ops, input))
      && (FieldDecode(f1, ops, input).Success? && FieldDecode(f2, ops, input).Success? ==> ctor.Some?)
    }

    /**
     * `Decode`: every field against the same input, in order; the first
     * failure is returned without calling the constructor, and a success
     * keeps the original input as its remainder.
     */
    function Decode(ops: Ops<F>, input: F): (r: DataResult<(T, F)>)
      reads this
      requires Decodes(ops, input)
      ensures FieldDecode(f1, ops, input).Error? ==>
        r == Error(FieldDecode(f1, ops, input).message, None)
      ensures FieldDecode(f1, ops, input).Success? && FieldDecode(f2, ops, input).Error? ==>
        r == Error(FieldDecode(f2, ops, input).message, None)
      ensures FieldDecode(f1, ops, input).Success? && FieldDecode(f2, ops, input).Success? ==>
        r == Success((ctor.value(FieldDecode(f1, ops, input).value.0, FieldDecode(f2, ops, input).value.0), input))
    {
      var r1 := FieldDecode(f1, ops, input);
      if r1.Error? then Fail(r1.ErrorMessage(), None)
      else
        var r2 := FieldDecode(f2, ops, input);
        if r2.Error? then Fail(r2.ErrorMessage(), None)
        else
          Success((ctor.value(r1.GetOrThrow().0, r2.GetOrThrow().0), input))
    }

    ghost predicate Encodes(x: T, ops: Ops<F>)
    {
      EntryDefined(f1, x, ops) && EntryDefined(f2, x, ops)
    }

    /** `Encode`: a fresh builder receives the fields' entries in declaration order and is built onto the prefix. */
    function Encode(x: T, ops: Ops<F>, prefix: F): (r: DataResult<F>)
      requires Encodes(x, ops)
      ensures r == ops.build([(ops.createString(f1.name), f1.codec.EncodeStart(ops, f1.getter(x))),
                                (ops.createString(f2.name), f2.codec.EncodeStart(ops, f2.getter(x)))], prefix)
    {
      ops.build([Entry(f1, x, ops), Entry(f2, x, ops)], prefix)
    }
  }

  /**
   * Fm2 reads its record back from any output in which the builder stored
   * every field's encoding under its key; the remainder is the output itself.
   */
  lemma Fm2RoundTrips<T, A, B, F>(m: Fm2<T, A, B, F>, ops: Ops<F>, x: T)
    requires m.ctor.Some? && m.ctor.value(m.f1.getter(x), m.f2.getter(x)) == x
    requires RoundTrips(m.f1.codec, ops, m.f1.getter(x))
    requires RoundTrips(m.f2.codec, ops, m.f2.getter(x))
    requires m.Encode(x, ops, ops.empty).Success?
    requires StoresUnder(ops, m.Encode(x, ops, ops.empty).value, m.f1.name, Encoded(m.f1, x, ops))
    requires StoresUnder(ops, m.Encode(x, ops, ops.empty).value, m.f2.name, Encoded(m.f2, x, ops))
    ensures m.Decodes(ops, m.Encode(x, ops, ops.empty).value)
    ensures m.Decode(ops, m.Encode(x, ops, ops.empty).value) == Success((x, m.Encode(x, ops, ops.empty).value))
  {
    var out := m.Encode(x, ops, ops.empty).value;
    FieldReadsBack(m.f1, ops, x, out);
    FieldReadsBack(m.f2, ops, x, out);
  }

  class Fm3<T, A, B, C, F> {
    const f1: FieldCodec<T, A, F>
    const f2: FieldCodec<T, B, F>
    const f3: FieldCodec<T, C, F>
    var ctor: Option<(A, B, C) -> T>

    constructor (f1: FieldCodec<T, A, F>, f2: FieldCodec<T, B, F>, f3: FieldCodec<T, C, F>)
      ensures this.f1 == f1 && this.f2 == f2 && this.f3 == f3 && ctor == None
    {
      this.f1 := f1;
      this.f2 := f2;
      this.f3 := f3;
      ctor := None;
    }

    /** `WithCtor`: stores the constructor and returns the same mapper. */
    method WithCtor(c: (A, B, C) -> T) returns (self: Fm3<T, A, B, C, F>)
      modifies this
      ensures ctor == Some(c) && self == this
    {
      ctor := Some(c);
      self := this;
    }

    ghost predicate Decodes(ops: Ops<F>, input: F)
      reads this
    {
      FieldDecodes(f1, ops, input)
      && (FieldDecode(f1, ops, input).Success? ==> FieldDecodes(f2, ops, input))
      && (FieldDecode(f1, ops, input).Success? && FieldDecode(f2, ops, input).Success? ==> FieldDecodes(f3, ops, input))
      && (FieldDecode(f1, ops, input).Success? && FieldDecode(f2, ops, input).Success? && FieldDecode(f3, ops, input).Success? ==> ctor.Some?)
    }

    /**
     * `Decode`: every field against the same input, in order; the first
     * failure is returned without calling the constructor, and a success
     * keeps the original input as its remainder.
     */
    function Decode(ops: Ops<F>, input: F): (r: DataResult<(T, F)>)
      reads this
      requires Decodes(ops, input)
      ensures FieldDecode(f1, ops, input).Error? ==>
        r == Error(FieldDecode(f1, ops, input).message, None)
      ensures FieldDecode(f1, ops, input).Success? && FieldDecode(f2, ops, input).Error? ==>
        r == Error(FieldDecode(f2, ops, input).message, None)
      ensures FieldDecode(f1, ops, input).Success? && FieldDecode(f2, ops, input).Success? && FieldDecode(f3, ops, input).Error? ==>
        r == Error(FieldDecode(f3, ops, input).message, None)
      ensures FieldDecode(f1, ops, input).Success? && FieldDecode(f2, ops, input).Success? && FieldDecode(f3, ops, input).Success? ==>
        r == Success((ctor.value(FieldDecode(f1, ops, input).value.0, FieldDecode(f2, ops, input).value.0, FieldDecode(f3, ops, input).value.0), input))
    {
      var r1 := FieldDecode(f1, ops, input);
      if r1.Error? then Fail(r1.ErrorMessage(), None)
      else
        var r2 := FieldDecode(f2, ops, input);
        if r2.Error? then Fail(r2.ErrorMessage(), None)
        else
          var r3 := FieldDecode(f3, ops, input);
          if r3.Error? then Fail(r3.ErrorMessage(), None)
          else
            Success((ctor.value(r1.GetOrThrow().0, r2.GetOrThrow().0, r3.GetOrThrow().0), input))
    }

    ghost predicate Encodes(x: T, ops: Ops<F>)
    {
      EntryDefined(f1, x, ops) && EntryDefined(f2, x, ops) && EntryDefined(f3, x, ops)
    }

    /** `Encode`: a fresh builder receives the fields' entries in declaration order and is built onto the prefix. */
    function Encode(x: T, ops: Ops<F>, prefix: F): (r: DataResult<F>)
      requires Encodes(x, ops)
      ensures r == ops.build([(ops.createString(f1.name), f1.codec.EncodeStart(ops, f1.getter(x))),
                                (ops.createString(f2.name), f2.codec.EncodeStart(ops, f2.getter(x))),
                                (ops.createString(f3.name), f3.codec.EncodeStart(ops, f3.getter(x)))], prefix)
    {
      ops.build([Entry(f1, x, ops), Entry(f2, x, ops), Entry(f3, x, ops)], prefix)
    }
  }

  /**
   * Fm3 reads its record back from any output in which the builder stored
   * every field's encoding under its key; the remainder is the output itself.
   */
  lemma Fm3RoundTrips<T, A, B, C, F>(m: Fm3<T, A, B, C, F>, ops: Ops<F>, x: T)
    requires m.ctor.Some? && m.ctor.value(m.f1.getter(x), m.f2.getter(x), m.f3.getter(x)) == x
    requires RoundTrips(m.f1.codec, ops, m.f1.getter(x))
    requires RoundTrips(m.f2.codec, ops, m.f2.getter(x))
    requires RoundTrips(m.f3.codec, ops, m.f3.getter(x))
    requires m.Encode(x, ops, ops.empty).Success?
    requires StoresUnder(ops, m.Encode(x, ops, ops.empty).value, m.f1.name, Encoded(m.f1, x, ops))
    requires StoresUnder(ops, m.Encode(x, ops, ops.empty).value, m.f2.name, Encoded(m.f2, x, ops))
    requires StoresUnder(ops, m.Encode(x, ops, ops.empty).value, m.f3.name, Encoded(m.f3, x, ops))
    ensures m.Decodes(ops, m.Encode(x, ops, ops.empty).value)
    ensures m.Decode(ops, m.Encode(x, ops, ops.empty).value) == Success((x, m.Encode(x, ops, ops.empty).value))
  {
    var out := m.Encode(x, ops, ops.empty).value;
    FieldReadsBack(m.f1, ops, x, out);
    FieldReadsBack(m.f2, ops, x, out);
    FieldReadsBack(m.f3, ops, x, out);
  }

  class Fm4<T, A, B, C, D, F> {
    const f1: FieldCodec<T, A, F>
    const f2: FieldCodec<T, B, F>
    const f3: FieldCodec<T, C, F>
    const f4: FieldCodec<T, D, F>
    var ctor: Option<(A, B, C, D) -> T>

    constructor (f1: FieldCodec<T, A, F>, f2: FieldCodec<T, B, F>, f3: FieldCodec<T, C, F>, f4: FieldCodec<T, D, F>)
      ensures this.f1 == f1 && this.f2 == f2 && this.f3 == f3 && this.f4 == f4 && ctor == None
    {
      this.f1 := f1;
      this.f2 := f2;
      this.f3 := f3;
      this.f4 := f4;
      ctor := None;
    }

    /** `WithCtor`: stores the constructor and returns the same mapper. */
    method WithCtor(c: (A, B, C, D) -> T) returns (self: Fm4<T, A, B, C, D, F>)
      modifies this
      ensures ctor == Some(c) && self == this
    {
      ctor := Some(c);
      self := this;
    }

    ghost predicate Decodes(ops: Ops<F>, input: F)
      reads this
    {
      FieldDecodes(f1, ops, input)
      && (FieldDecode(f1, ops, input).Success? ==> FieldDecodes(f2, ops, input))
      && (FieldDecode(f1, ops, input).Success? && FieldDecode(f2, ops, input).Success? ==> FieldDecodes(f3, ops, input))
      && (FieldDecode(f1, ops, input).Success? && FieldDecode(f2, ops, input).Success? && FieldDecode(f3, ops, input).Success? ==> FieldDecodes(f4, ops, input))
      && (FieldDecode(f1, ops, input).Success? && FieldDecode(f2, ops, input).Success? && FieldDecode(f3, ops, input).Success? && FieldDecode(f4, ops, input).Success? ==> ctor.Some?)
    }

    /**
     * `Decode`: every field against the same input, in order; the first
     * failure is returned without calling the constructor, and a success
     * keeps the original input as its remainder.
     */
    function Decode(ops: Ops<F>, input: F): (r: DataResult<(T, F)>)
      reads this
      requires Decodes(ops, input)
      ensures FieldDecode(f1, ops, input).Error? ==>
        r == Error(FieldDecode(f1, ops, input).message, None)
      ensures FieldDecode(f1, ops, input).Success? && FieldDecode(f2, ops, input).Error? ==>
        r == Error(FieldDecode(f2, ops, input).message, None)
      ensures FieldDecode(f1, ops, input).Success? && FieldDecode(f2, ops, input).Success? && FieldDecode(f3, ops, input).Error? ==>
        r == Error(FieldDecode(f3, ops, input).message, None)
      ensures FieldDecode(f1, ops, input).Success? && FieldDecode(f2, ops, input).Success? && FieldDecode(f3, ops, input).Success? && FieldDecode(f4, ops, input).Error? ==>
        r == Error(FieldDecode(f4, ops, input).message, None)
      ensures FieldDecode(f1, ops, input).Success? && FieldDecode(f2, ops, input).Success? && FieldDecode(f3, ops, input).Success? && FieldDecode(f4, ops, input).Success? ==>
        r == Success((ctor.value(FieldDecode(f1, ops, input).value.0, FieldDecode(f2, ops, input).value.0, FieldDecode(f3, ops, input).value.0, FieldDecode(f4, ops, input).value.0), input))
    {
      var r1 := FieldDecode(f1, ops, input);
      if r1.Error? then Fail(r1.ErrorMessage(), None)
      else
        var r2 := FieldDecode(f2, ops, input);
        if r2.Error? then Fail(r2.ErrorMessage(), None)
        else
          var r3 := FieldDecode(f3, ops, input);
          if r3.Error? then Fail(r3.ErrorMessage(), None)
          else
            var r4 := FieldDecode(f4, ops, input);
            if r4.Error? then Fail(r4.ErrorMessage(), None)
            else
              Success((ctor.value(r1.GetOrThrow().0, r2.GetOrThrow().0, r3.GetOrThrow().0, r4.GetOrThrow().0), input))
    }

    ghost predicate Encodes(x: T, ops: Ops<F>)
    {
      EntryDefined(f1, x, ops) && EntryDefined(f2, x, ops) && EntryDefined(f3, x, ops) && EntryDefined(f4, x, ops)
    }

    /** `Encode`: a fresh builder receives the fields' entries in declaration order and is built onto the prefix. */
    function Encode(x: T, ops: Ops<F>, prefix: F): (r: DataResult<F>)
      requires Encodes(x, ops)
      ensures r == ops.build([(ops.createString(f1.name), f1.codec.EncodeStart(ops, f1.getter(x))),
                                (ops.createString(f2.name), f2.codec.EncodeStart(ops, f2.getter(x))),
                                (ops.createString(f3.name), f3.codec.EncodeStart(ops, f3.getter(x))),
                                (ops.createString(f4.name), f4.codec.EncodeStart(ops, f4.getter(x)))], prefix)
    {
      ops.build([Entry(f1, x, ops), Entry(f2, x, ops), Entry(f3, x, ops), Entry(f4, x, ops)], prefix)
    }
  }

  /**
   * Fm4 reads its record back from any output in which the builder stored
   * every field's encoding under its key; the remainder is the output itself.
   */
  lemma Fm4RoundTrips<T, A, B, C, D, F>(m: Fm4<T, A, B, C, D, F>, ops: Ops<F>, x: T)
    requires m.ctor.Some? && m.ctor.value(m.f1.getter(x), m.f2.getter(x), m.f3.getter(x), m.f4.getter(x)) == x
    requires RoundTrips(m.f1.codec, ops, m.f1.getter(x))
    requires RoundTrips(m.f2.codec, ops, m.f2.getter(x))
    requires RoundTrips(m.f3.codec, ops, m.f3.getter(x))
    requires RoundTrips(m.f4.codec, ops, m.f4.getter(x))
    requires m.Encode(x, ops, ops.empty).Success?
    requires StoresUnder(ops, m.Encode(x, ops, ops.empty).value, m.f1.name, Encoded(m.f1, x, ops))
    requires StoresUnder(ops, m.Encode(x, ops, ops.empty).value, m.f2.name, Encoded(m.f2, x, ops))
    requires StoresUnder(ops, m.Encode(x, ops, ops.empty).value, m.f3.name, Encoded(m.f3, x, ops))
    requires StoresUnder(ops, m.Encode(x, ops, ops.empty).value, m.f4.name, Encoded(m.f4, x, ops))
    ensures m.Decodes(ops, m.Encode(x, ops, ops.empty).value)
    ensures m.Decode(ops, m.Encode(x, ops, ops.empty).value) == Success((x, m.Encode(x, ops, ops.empty).value))
  {
    var out := m.Encode(x, ops, ops.empty).value;
    FieldReadsBack(m.f1, ops, x, out);
    FieldReadsBack(m.f2, ops, x, out);
    FieldReadsBack(m.f3, ops, x, out);
    FieldReadsBack(m.f4, ops, x, out);
  }

  class Fm5<T, A, B, C, D, E, F> {
    const f1: FieldCodec<T, A, F>
    const f2: FieldCodec<T, B, F>
    const f3: FieldCodec<T, C, F>
    const f4: FieldCodec<T, D, F>
    const f5: FieldCodec<T, E, F>
    var ctor: Option<(A, B, C, D, E) -> T>

    constructor (f1: FieldCodec<T, A, F>, f2: FieldCodec<T, B, F>, f3: FieldCodec<T, C, F>, f4: FieldCodec<T, D, F>, f5: FieldCodec<T, E, F>)
      ensures this.f1 == f1 && this.f2 == f2 && this.f3 == f3 && this.f4 == f4 && this.f5 == f5 && ctor == None
    {
      this.f1 := f1;
      this.f2 := f2;
      this.f3 := f3;
      this.f4 := f4;
      this.f5 := f5;
      ctor := None;
    }

    /** `WithCtor`: stores the constructor and returns the same mapper. */
    method WithCtor(c: (A, B, C, D, E) -> T) returns (self: Fm5<T, A, B, C, D, E, F>)
      modifies this
      ensures ctor == Some(c) && self == this
    {
      ctor := Some(c);
      self := this;
    }

    ghost predicate Decodes(ops: Ops<F>, input: F)
      reads this
    {
      FieldDecodes(f1, ops, input)
      && (FieldDecode(f1, ops, input).Success? ==> FieldDecodes(f2, ops, input))
      && (FieldDecode(f1, ops, input).Success? && FieldDecode(f2, ops, input).Success? ==> FieldDecodes(f3, ops, input))
      && (FieldDecode(f1, ops, input).Success? && FieldDecode(f2, ops, input).Success? && FieldDecode(f3, ops, input).Success? ==> FieldDecodes(f4, ops, input))
      && (FieldDecode(f1, ops, input).Success? && FieldDecode(f2, ops, input).Success? && FieldDecode(f3, ops, input).Success? && FieldDecode(f4, ops, input).Success? ==> FieldDecodes(f5, ops, input))
      && (FieldDecode(f1, ops, input).Success? && FieldDecode(f2, ops, input).Success? && FieldDecode(f3, ops, input).Success? && FieldDecode(f4, ops, input).Success? && FieldDecode(f5, ops, input).Success? ==> ctor.Some?)
    }

    /**
     * `Decode`: every field against the same input, in order; the first
     * failure is returned without calling the constructor, and a success
     * keeps the original input as its remainder.
     */
    function Decode(ops: Ops<F>, input: F): (r: DataResult<(T, F)>)
      reads this
      requires Decodes(ops, input)
      ensures FieldDecode(f1, ops, input).Error? ==>
        r == Error(FieldDecode(f1, ops, input).message, None)
      ensures FieldDecode(f1, ops, input).Success? && FieldDecode(f2, ops, input).Error? ==>
        r == Error(FieldDecode(f2, ops, input).message, None)
      ensures FieldDecode(f1, ops, input).Success? && FieldDecode(f2, ops, input).Success? && FieldDecode(f3, ops, input).Error? ==>
        r == Error(FieldDecode(f3, ops, input).message, None)
      ensures FieldDecode(f1, ops, input).Success? && FieldDecode(f2, ops, input).Success? && FieldDecode(f3, ops, input).Success? && FieldDecode(f4, ops, input).Error? ==>
        r == Error(FieldDecode(f4, ops, input).message, None)
      ensures FieldDecode(f1, ops, input).Success? && FieldDecode(f2, ops, input).Success? && FieldDecode(f3, ops, input).Success? && FieldDecode(f4, ops, input).Success? && FieldDecode(f5, ops, input).Error? ==>
        r == Error(FieldDecode(f5, ops, input).message, None)
      ensures FieldDecode(f1, ops, input).Success? && FieldDecode(f2, ops, input).Success? && FieldDecode(f3, ops, input).Success? && FieldDecode(f4, ops, input).Success? && FieldDecode(f5, ops, input).Success? ==>
        r == Success((ctor.value(FieldDecode(f1, ops, input).value.0, FieldDecode(f2, ops, input).value.0, FieldDecode(f3, ops, input).value.0, FieldDecode(f4, ops, input).value.0, FieldDecode(f5, ops, input).value.0), input))
    {
      var r1 := FieldDecode(f1, ops, input);
      if r1.Error? then Fail(r1.ErrorMessage(), None)
      else
        var r2 := FieldDecode(f2, ops, input);
        if r2.Error? then Fail(r2.ErrorMessage(), None)
        else
          var r3 := FieldDecode(f3, ops, input);
          if r3.Error? then Fail(r3.ErrorMessage(), None)
          else
            var r4 := FieldDecode(f4, ops, input);
            if r4.Error? then Fail(r4.ErrorMessage(), None)
            else
              var r5 := FieldDecode(f5, ops, input);
              if r5.Error? then Fail(r5.ErrorMessage(), None)
              else
                Success((ctor.value(r1.GetOrThrow().0, r2.GetOrThrow().0, r3.GetOrThrow().0, r4.GetOrThrow().0, r5.GetOrThrow().0), input))
    }

    ghost predicate Encodes(x: T, ops: Ops<F>)
    {
      EntryDefined(f1, x, ops) && EntryDefined(f2, x, ops) && EntryDefined(f3, x, ops) && EntryDefined(f4, x, ops) && EntryDefined(f5, x, ops)
    }

    /** `Encode`: a fresh builder receives the fields' entries in declaration order and is built onto the prefix. */
    function Encode(x: T, ops: Ops<F>, prefix: F): (r: DataResult<F>)
      requires Encodes(x, ops)
      ensures r == ops.build([(ops.createString(f1.name), f1.codec.EncodeStart(ops, f1.getter(x))),
                                (ops.createString(f2.name), f2.codec.EncodeStart(ops, f2.getter(x))),
                                (ops.createString(f3.name), f3.codec.EncodeStart(ops, f3.getter(x))),
                                (ops.createString(f4.name), f4.codec.EncodeStart(ops, f4.getter(x))),
                                (ops.createString(f5.name), f5.codec.EncodeStart(ops, f5.getter(x)))], prefix)
    {
      ops.build([Entry(f1, x, ops), Entry(f2, x, ops), Entry(f3, x, ops), Entry(f4, x, ops), Entry(f5, x, ops)], prefix)
    }
  }

  /**
   * Fm5 reads its record back from any output in which the builder stored
   * every field's encoding under its key; the remainder is the output itself.
   */
  lemma Fm5RoundTrips<T, A, B, C, D, E, F>(m: Fm5<T, A, B, C, D, E, F>, ops: Ops<F>, x: T)
    requires m.ctor.Some? && m.ctor.value(m.f1.getter(x), m.f2.getter(x), m.f3.getter(x), m.f4.getter(x), m.f5.getter(x)) == x
    requires RoundTrips(m.f1.codec, ops, m.f1.getter(x))
    requires RoundTrips(m.f2.codec, ops, m.f2.getter(x))
    requires RoundTrips(m.f3.codec, ops, m.f3.getter(x))
    requires RoundTrips(m.f4.codec, ops, m.f4.getter(x))
    requires RoundTrips(m.f5.codec, ops, m.f5.getter(x))
    requires m.Encode(x, ops, ops.empty).Success?
    requires StoresUnder(ops, m.Encode(x, ops, ops.empty).value, m.f1.name, Encoded(m.f1, x, ops))
    requires StoresUnder(ops, m.Encode(x, ops, ops.empty).value, m.f2.name, Encoded(m.f2, x, ops))
    requires StoresUnder(ops, m.Encode(x, ops, ops.empty).value, m.f3.name, Encoded(m.f3, x, ops))
    requires StoresUnder(ops, m.Encode(x, ops, ops.empty).value, m.f4.name, Encoded(m.f4, x, ops))
    requires StoresUnder(ops, m.Encode(x, ops, ops.empty).value, m.f5.name, Encoded(m.f5, x, ops))
    ensures m.Decodes(ops, m.Encode(x, ops, ops.empty).value)
    ensures m.Decode(ops, m.Encode(x, ops, ops.empty).value) == Success((x, m.Encode(x, ops, ops.empty).value))
  {
    var out := m.Encode(x, ops, ops.empty).value;
    FieldReadsBack(m.f1, ops, x, out);
    FieldReadsBack(m.f2, ops, x, out);
    FieldReadsBack(m.f3, ops, x, out);
    FieldReadsBack(m.f4, ops, x, out);
    FieldReadsBack(m.f5, ops, x, out);
  }

  /**
   * Fm2 and RecordCodec2 differ only in threading the remainder: on a backend
   * whose `RemoveFromInput` leaves the input alone for both keys (the node
   * backend, which removes only an object's keys), they decode alike.
   */
  lemma Fm2AgreesWithRecordCodec2<T, A, B, F>(m: Fm2<T, A, B, F>, ops: Ops<F>, input: F)
    requires m.ctor.Some? && m.Decodes(ops, input)
    requires ops.removeValue(input, ops.createString(m.f1.name)) == input
    requires ops.removeValue(input, ops.createString(m.f2.name)) == input
    ensures Record2Decodes(m.f1, m.f2, ops, input)
    ensures Record2Decode(m.f1, m.f2, m.ctor.value, ops, input) == m.Decode(ops, input)
  {
  }
}
