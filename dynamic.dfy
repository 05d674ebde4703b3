/**
 * Dynamic<TFormat> (Datafixers/Dynamic.cs): a value of a format together
 * with the ops that read it, the object data fixes work on. `Get` looks a key
 * up; `Set` rebuilds the map pair by pair through a consumer that replaces the
 * target key's value, and adds the key at the end when it was not there.
 */
module Dynamics {
  import opened Results
  import opened DynamicOps

  datatype Dynamic<!F> = Dynamic(ops: Ops<F>, value: F)

  /** `Get`: the lookup's failure (message only), or the found value with the same ops. */
  function Get<F>(d: Dynamic<F>, key: string): (r: DataResult<Dynamic<F>>)
    ensures d.ops.getValue(d.value, key).Error? ==> r == Error(d.ops.getValue(d.value, key).message, None)
    ensures d.ops.getValue(d.value, key).Success? ==> r == Success(Dynamic(d.ops, d.ops.getValue(d.value, key).value))
  {
    var result := d.ops.getValue(d.value, key);
    if result.Error? then Fail(result.ErrorMessage(), None)
    else Success(Dynamic(d.ops, result.GetOrThrow()))
  }

  /** The contents of a `MapTransformState`: the map built so far, whether the key was seen, the recorded failure. */
  datatype Transform<F> = Transform(built: F, keyFound: bool, errorState: DataResult<Unit>)

  /**
   * `MapTransformer.Accept` on one pair: nothing once a failure is recorded;
   * a key that is not a string, or a refused `AddToMap`, records the failure;
   * otherwise the pair is added, with `newValue` in place of the target's value.
   */
  function Step<F>(ops: Ops<F>, targetKey: string, newValue: F, s: Transform<F>, key: F, value: F): (r: Transform<F>)
    ensures s.errorState.Error? ==> r == s
    ensures s.errorState.Success? && ops.getString(key).Error? ==>
      r == s.(errorState := Error(ops.getString(key).message, Some(Unit)))
    ensures s.errorState.Success? && ops.getString(key).Success? ==>
      var isTarget := ops.getString(key).value == targetKey;
      var added := ops.addToMap(s.built, key, if isTarget then newValue else value);
      r.keyFound == (s.keyFound || isTarget)
      && (added.Error? ==> r.built == s.built && r.errorState == Error(added.message, Some(Unit)))
      && (added.Success? ==> r.built == added.value && r.errorState == s.errorState)
  {
    if s.errorState.Error? then s
    else
      var keyStrResult := ops.getString(key);
      if keyStrResult.Error? then s.(errorState := Fail(keyStrResult.ErrorMessage(), Some(Unit)))
      else
        var isTarget := keyStrResult.GetOrThrow() == targetKey;
        var valueToWrite := if isTarget then newValue else value;
        var s1 := if isTarget then s.(keyFound := true) else s;
        var addResult := ops.addToMap(s1.built, key, valueToWrite);
        if addResult.Error? then s1.(errorState := Fail(addResult.ErrorMessage(), Some(Unit)))
        else s1.(built := addResult.GetOrThrow())
  }

  /** The state after the consumer has seen `pairs`, starting from an empty map and a success. */
  function TransformAll<F>(ops: Ops<F>, targetKey: string, newValue: F, pairs: seq<(F, F)>): Transform<F>
    decreases |pairs|
  {
    if |pairs| == 0 then Transform(ops.createEmptyMap, false, Success(Unit))
    else
      var last := pairs[|pairs| - 1];
      Step(ops, targetKey, newValue, TransformAll(ops, targetKey, newValue, pairs[..|pairs| - 1]), last.0, last.1)
  }

  /** `MapTransformState`, the state the consumer updates in place (`built` is its `Map`). */
  class MapTransformState<F> {
    var built: F
    var keyFound: bool
    var errorState: DataResult<Unit>

    constructor (emptyMap: F)
      ensures built == emptyMap && !keyFound && errorState == Success(Unit)
    {
      built := emptyMap;
      keyFound := false;
      errorState := Success(Unit);
    }

    function Contents(): Transform<F>
      reads this
    {
      Transform(built, keyFound, errorState)
    }

    predicate IsError()
      reads this
    {
      errorState.Error?
    }

    function ErrorMessage(): string
      reads this
    {
      errorState.ErrorMessage()
    }
  }

  /** `MapTransformer.Accept`: one pair, in place. */
  method Accept<F>(ops: Ops<F>, targetKey: string, newValue: F, state: MapTransformState<F>, key: F, value: F)
    modifies state
    ensures state.Contents() == Step(ops, targetKey, newValue, old(state.Contents()), key, value)
  {
    if state.IsError() {
      return;
    }
    var keyStrResult := ops.getString(key);
    if keyStrResult.Error? {
      state.errorState := Fail(keyStrResult.ErrorMessage(), Some(Unit));
      return;
    }
    var isTarget := keyStrResult.GetOrThrow() == targetKey;
    var valueToWrite := if isTarget then newValue else value;
    if isTarget {
      state.keyFound := true;
    }
    var addResult := ops.addToMap(state.built, key, valueToWrite);
    if addResult.Error? {
      state.errorState := Fail(addResult.ErrorMessage(), Some(Unit));
    } else {
      state.built := addResult.GetOrThrow();
    }
  }

  /**
   * `Set` as a function: ReadMap's failure, else the consumer's failure, else
   * the rebuilt map, with the target key added at the end when no key matched
   * (that `AddToMap` may fail too). Only the message of a failure survives.
   */
  function SetSpec<F>(d: Dynamic<F>, targetKey: string, newValue: Dynamic<F>): (r: DataResult<Dynamic<F>>)
    ensures d.ops.readMap(d.value).Error? ==> r == Error(d.ops.readMap(d.value).message, None)
    ensures r.Error? ==> r.partial.None?
    ensures r.Success? ==> r.value.ops == d.ops
  {
    var readResult := d.ops.readMap(d.value);
    if readResult.Error? then Fail(readResult.ErrorMessage(), None)
    else
      var state := TransformAll(d.ops, targetKey, newValue.value, readResult.value);
      if state.errorState.Error? then Fail(state.errorState.ErrorMessage(), None)
      else if !state.keyFound then
        var addResult := d.ops.addToMap(state.built, d.ops.createString(targetKey), newValue.value);
        if addResult.Error? then Fail(addResult.ErrorMessage(), None)
        else Success(Dynamic(d.ops, addResult.GetOrThrow()))
      else Success(Dynamic(d.ops, state.built))
  }

  /** `Set`: ReadMap feeds every pair to the consumer, which updates the state in place. */
  method Set<F>(d: Dynamic<F>, targetKey: string, newValue: Dynamic<F>) returns (r: DataResult<Dynamic<F>>)
    ensures r == SetSpec(d, targetKey, newValue)
  {
    var state := new MapTransformState(d.ops.createEmptyMap);
    var readResult := d.ops.readMap(d.value);
    if readResult.Success? {
      var pairs := readResult.value;
      var i := 0;
      while i < |pairs|
        invariant 0 <= i <= |pairs|
        invariant state.Contents() == TransformAll(d.ops, targetKey, newValue.value, pairs[..i])
      {
        assert pairs[..i + 1][..i] == pairs[..i];
        Accept(d.ops, targetKey, newValue.value, state, pairs[i].0, pairs[i].1);
        assert pairs[..i + 1][i] == pairs[i];
        i := i + 1;
      }
      assert pairs[..i] == pairs;
    }
    if readResult.Error? {
      return Fail(readResult.ErrorMessage(), None);
    }
    if state.IsError() {
      return Fail(state.ErrorMessage(), None);
    }
    if !state.keyFound {
      var keyFormat := d.ops.createString(targetKey);
      var addResult := d.ops.addToMap(state.built, keyFormat, newValue.value);
      if addResult.Error? {
        return Fail(addResult.ErrorMessage(), None);
      }
      state.built := addResult.GetOrThrow();
    }
    return Success(Dynamic(d.ops, state.built));
  }

  // ------------------------------------------------------ reference definition

  /** Some key of `pairs` reads as the target key. */
  ghost predicate HasTarget<F>(ops: Ops<F>, targetKey: string, pairs: seq<(F, F)>)
  {
    exists i | 0 <= i < |pairs| :: ops.getString(pairs[i].0) == Success(targetKey)
  }

  /** `pairs` with every target key's value replaced by `newValue`. */
  function Replaced<F>(ops: Ops<F>, targetKey: string, newValue: F, pairs: seq<(F, F)>): (r: seq<(F, F)>)
    ensures |r| == |pairs|
    ensures forall i | 0 <= i < |pairs| :: r[i].0 == pairs[i].0
  {
    seq(|pairs|, i requires 0 <= i < |pairs| =>
      (pairs[i].0, if ops.getString(pairs[i].0) == Success(targetKey) then newValue else pairs[i].1))
  }

  /** Adding `pairs` one by one to an empty map, stopping at the first refusal. */
  function AddAll<F>(ops: Ops<F>, pairs: seq<(F, F)>): DataResult<F>
    decreases |pairs|
  {
    if |pairs| == 0 then Success(ops.createEmptyMap)
    else
      var built := AddAll(ops, pairs[..|pairs| - 1]);
      var last := pairs[|pairs| - 1];
      if built.Error? then built
      else
        var added := ops.addToMap(built.value, last.0, last.1);
        if added.Error? then Error(added.message, None) else added
  }

  /** The consumer, on string keys, builds what adding the replaced pairs builds, failing alike. */
  lemma {:induction false} TransformAllIsAddAll<F>(ops: Ops<F>, targetKey: string, newValue: F, pairs: seq<(F, F)>)
    requires forall i | 0 <= i < |pairs| :: ops.getString(pairs[i].0).Success?
    ensures var t := TransformAll(ops, targetKey, newValue, pairs);
      var a := AddAll(ops, Replaced(ops, targetKey, newValue, pairs));
      (t.errorState.Error? <==> a.Error?)
      && (a.Error? ==> t.errorState.message == a.message && a.partial.None?)
      && (a.Success? ==> t.built == a.value)
    decreases |pairs|
  {
    if |pairs| > 0 {
      var n := |pairs|;
      var init := pairs[..n - 1];
      var replaced := Replaced(ops, targetKey, newValue, pairs);
      TransformAllIsAddAll(ops, targetKey, newValue, init);
      assert replaced[..n - 1] == Replaced(ops, targetKey, newValue, init);
      assert replaced[n - 1].0 == pairs[n - 1].0;
      assert replaced[n - 1].1 == if ops.getString(pairs[n - 1].0).value == targetKey then newValue else pairs[n - 1].1;
    }
  }

  /** As long as no failure is recorded, `keyFound` says whether some key read as the target. */
  lemma {:induction false} TransformAllFindsTarget<F>(ops: Ops<F>, targetKey: string, newValue: F, pairs: seq<(F, F)>)
    requires forall i | 0 <= i < |pairs| :: ops.getString(pairs[i].0).Success?
    ensures var t := TransformAll(ops, targetKey, newValue, pairs);
      t.errorState.Success? ==> (t.keyFound <==> HasTarget(ops, targetKey, pairs))
    decreases |pairs|
  {
    if |pairs| > 0 {
      var n := |pairs|;
      var init := pairs[..n - 1];
      TransformAllFindsTarget(ops, targetKey, newValue, init);
      var t := TransformAll(ops, targetKey, newValue, init);
      if HasTarget(ops, targetKey, init) {
        var i :| 0 <= i < |init| && ops.getString(init[i].0) == Success(targetKey);
        assert pairs[i] == init[i];
      }
      if HasTarget(ops, targetKey, pairs) && ops.getString(pairs[n - 1].0) != Success(targetKey) {
        var i :| 0 <= i < n && ops.getString(pairs[i].0) == Success(targetKey);
        assert i < n - 1 && init[i] == pairs[i];
      }
    }
  }

  /**
   * On a map whose keys are all strings, `Set` is adding the pairs with the
   * target's value replaced, plus the target key at the end when no key
   * matched.
   */
  lemma SetReplacesOrAppends<F>(d: Dynamic<F>, targetKey: string, newValue: Dynamic<F>)
    requires d.ops.readMap(d.value).Success?
    requires var pairs := d.ops.readMap(d.value).value;
      forall i | 0 <= i < |pairs| :: d.ops.getString(pairs[i].0).Success?
    ensures var pairs := d.ops.readMap(d.value).value;
      var extra := if HasTarget(d.ops, targetKey, pairs) then [] else [(d.ops.createString(targetKey), newValue.value)];
      SetSpec(d, targetKey, newValue)
        == AddAll(d.ops, Replaced(d.ops, targetKey, newValue.value, pairs) + extra).Map((m: F) => Dynamic(d.ops, m), None)
  {
    var pairs := d.ops.readMap(d.value).value;
    var replaced := Replaced(d.ops, targetKey, newValue.value, pairs);
    TransformAllIsAddAll(d.ops, targetKey, newValue.value, pairs);
    TransformAllFindsTarget(d.ops, targetKey, newValue.value, pairs);
    if !HasTarget(d.ops, targetKey, pairs) {
      var extra := [(d.ops.createString(targetKey), newValue.value)];
      assert (replaced + extra)[..|replaced + extra| - 1] == replaced;
    } else {
      assert replaced + [] == replaced;
    }
  }

  /**
   * A key that does not read as a string makes `Set` fail; when nothing failed
   * before it, with GetString's message.
   */
  lemma SetFailsOnNonStringKey<F>(d: Dynamic<F>, targetKey: string, newValue: Dynamic<F>, i: nat)
    requires d.ops.readMap(d.value).Success?
    requires i < |d.ops.readMap(d.value).value|
    requires d.ops.getString(d.ops.readMap(d.value).value[i].0).Error?
    ensures SetSpec(d, targetKey, newValue).Error?
    ensures var pairs := d.ops.readMap(d.value).value;
      TransformAll(d.ops, targetKey, newValue.value, pairs[..i]).errorState.Success? ==>
        SetSpec(d, targetKey, newValue).message == d.ops.getString(pairs[i].0).message
  {
    var pairs := d.ops.readMap(d.value).value;
    assert pairs[..i + 1][..i] == pairs[..i];
    assert pairs[..i + 1][i] == pairs[i];
    TransformStaysFailed(d.ops, targetKey, newValue.value, pairs, i + 1);
  }

  /** Once the consumer has recorded a failure, later pairs change nothing. */
  lemma {:induction false} TransformStaysFailed<F>(ops: Ops<F>, targetKey: string, newValue: F, pairs: seq<(F, F)>, k: nat)
    requires k <= |pairs|
    requires TransformAll(ops, targetKey, newValue, pairs[..k]).errorState.Error?
    ensures TransformAll(ops, targetKey, newValue, pairs) == TransformAll(ops, targetKey, newValue, pairs[..k])
    decreases |pairs| - k
  {
    if k < |pairs| {
      assert pairs[..k + 1][..k] == pairs[..k];
      TransformStaysFailed(ops, targetKey, newValue, pairs, k + 1);
    } else {
      assert pairs[..k] == pairs;
    }
  }
}
