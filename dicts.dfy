/**
 * Ordered dictionaries: a .NET Dictionary or a JSON object is the sequence
 * of its entries in enumeration order. `d[k] = v` replaces the value of an
 * existing key where it stands and appends a new key at the end;
 * `Remove(k)` drops the key's entry and keeps the order of the others.
 */
module Dicts {
  import opened Results

  type Dict<K, V> = seq<(K, V)>

  function Keys<K, V>(d: Dict<K, V>): seq<K>
  {
    seq(|d|, i requires 0 <= i < |d| => d[i].0)
  }

  predicate DistinctKeys<K(==), V>(d: Dict<K, V>)
  {
    forall i, j | 0 <= i < j < |d| :: d[i].0 != d[j].0
  }

  function Lookup<K(==), V>(d: Dict<K, V>, k: K): Option<V>
  {
    if |d| == 0 then None else if d[0].0 == k then Some(d[0].1) else Lookup(d[1..], k)
  }

  /** The indexer's setter `d[k] = v`. */
  function Put<K(==), V>(d: Dict<K, V>, k: K, v: V): Dict<K, V>
  {
    if |d| == 0 then [(k, v)]
    else if d[0].0 == k then [(k, v)] + d[1..]
    else [d[0]] + Put(d[1..], k, v)
  }

  /** `d.Remove(k)`. */
  function RemoveKey<K(==), V>(d: Dict<K, V>, k: K): Dict<K, V>
  {
    if |d| == 0 then []
    else if d[0].0 == k then RemoveKey(d[1..], k)
    else [d[0]] + RemoveKey(d[1..], k)
  }

  /** `d[k] = v` for each entry, in order. */
  function PutAll<K(==), V>(d: Dict<K, V>, entries: Dict<K, V>): Dict<K, V>
    decreases |entries|
  {
    if |entries| == 0 then d else Put(PutAll(d, entries[..|entries| - 1]), entries[|entries| - 1].0, entries[|entries| - 1].1)
  }

  /** `d.Remove(k)` for each key, in order. */
  function RemoveKeys<K(==), V>(d: Dict<K, V>, ks: seq<K>): Dict<K, V>
    decreases |ks|
  {
    if |ks| == 0 then d else RemoveKey(RemoveKeys(d, ks[..|ks| - 1]), ks[|ks| - 1])
  }

  /** The value of the last entry with key `k`: the one a sequence of writes leaves. */
  function LastValue<K(==), V>(entries: Dict<K, V>, k: K): Option<V>
    decreases |entries|
  {
    if |entries| == 0 then None
    else if entries[|entries| - 1].0 == k then Some(entries[|entries| - 1].1)
    else LastValue(entries[..|entries| - 1], k)
  }

  lemma {:induction false} LookupIn<K, V>(d: Dict<K, V>, k: K)
    ensures Lookup(d, k).Some? <==> k in Keys(d)
  {
    if |d| > 0 {
      LookupIn(d[1..], k);
      assert Keys(d) == [d[0].0] + Keys(d[1..]);
    }
  }

  /** Put finds the new value under its key and changes no other key. */
  lemma {:induction false} PutLookup<K, V>(d: Dict<K, V>, k: K, v: V)
    ensures Lookup(Put(d, k, v), k) == Some(v)
    ensures forall k2 | k2 != k :: Lookup(Put(d, k, v), k2) == Lookup(d, k2)
  {
    if |d| > 0 && d[0].0 != k {
      PutLookup(d[1..], k, v);
      assert Put(d, k, v)[1..] == Put(d[1..], k, v);
    }
  }

  /** The keys after Put are the old keys and the new one. */
  lemma {:induction false} PutKeys<K, V>(d: Dict<K, V>, k: K, v: V)
    ensures forall k2 :: k2 in Keys(Put(d, k, v)) <==> k2 == k || k2 in Keys(d)
  {
    if |d| > 0 {
      assert Keys(d) == [d[0].0] + Keys(d[1..]);
      if d[0].0 == k {
        assert Keys(Put(d, k, v)) == [k] + Keys(d[1..]);
      } else {
        PutKeys(d[1..], k, v);
        assert Keys(Put(d, k, v)) == [d[0].0] + Keys(Put(d[1..], k, v));
      }
    } else {
      assert Keys(Put(d, k, v)) == [k];
    }
  }

  /** A new key is appended at the end; an existing key keeps its place. */
  lemma {:induction false} PutNew<K, V>(d: Dict<K, V>, k: K, v: V)
    ensures k !in Keys(d) ==> Put(d, k, v) == d + [(k, v)]
    ensures k in Keys(d) ==> |Put(d, k, v)| == |d|
  {
    if |d| > 0 {
      assert Keys(d) == [d[0].0] + Keys(d[1..]);
      if d[0].0 != k {
        PutNew(d[1..], k, v);
        assert d == [d[0]] + d[1..];
      }
    }
  }

  lemma {:induction false} DistinctTail<K, V>(d: Dict<K, V>)
    requires |d| > 0 && DistinctKeys(d)
    ensures DistinctKeys(d[1..]) && d[0].0 !in Keys(d[1..])
  {
    var rest := d[1..];
    forall i, j | 0 <= i < j < |rest| ensures rest[i].0 != rest[j].0 {
      assert rest[i] == d[i + 1] && rest[j] == d[j + 1];
    }
    forall i | 0 <= i < |rest| ensures Keys(rest)[i] != d[0].0 {
      assert rest[i] == d[i + 1];
    }
  }

  /** Put keeps the keys distinct. */
  lemma {:induction false} PutDistinct<K, V>(d: Dict<K, V>, k: K, v: V)
    requires DistinctKeys(d)
    ensures DistinctKeys(Put(d, k, v))
  {
    if |d| > 0 {
      var put := Put(d, k, v);
      DistinctTail(d);
      if d[0].0 == k {
        forall i, j | 0 <= i < j < |put| ensures put[i].0 != put[j].0 {
          assert put[i].0 == d[i].0 && put[j].0 == d[j].0;
        }
      } else {
        var rest := d[1..];
        PutDistinct(rest, k, v);
        PutKeys(rest, k, v);
        var tail := Put(rest, k, v);
        assert d[0].0 !in Keys(tail);
        forall i, j | 0 <= i < j < |put| ensures put[i].0 != put[j].0 {
          if i == 0 {
            assert put[j].0 == Keys(tail)[j - 1];
          } else {
            assert put[i] == tail[i - 1] && put[j] == tail[j - 1];
          }
        }
      }
    }
  }

  /** Putting the entries of a dictionary with distinct keys, in order, into an empty one rebuilds it. */
  lemma {:induction false} PutAllDistinct<K, V>(entries: Dict<K, V>)
    requires DistinctKeys(entries)
    ensures PutAll([], entries) == entries
    decreases |entries|
  {
    if |entries| > 0 {
      var n := |entries|;
      var init := entries[..n - 1];
      assert DistinctKeys(init) by {
        forall i, j | 0 <= i < j < |init| ensures init[i].0 != init[j].0 {
          assert init[i] == entries[i] && init[j] == entries[j];
        }
      }
      PutAllDistinct(init);
      assert entries[n - 1].0 !in Keys(init) by {
        forall i | 0 <= i < |init| ensures Keys(init)[i] != entries[n - 1].0 {
          assert init[i] == entries[i];
        }
      }
      PutNew(init, entries[n - 1].0, entries[n - 1].1);
      assert init + [entries[n - 1]] == entries;
    }
  }

  /** After a sequence of writes, a key holds the last value written to it, or its old value. */
  lemma {:induction false} PutAllLookup<K, V>(d: Dict<K, V>, entries: Dict<K, V>, k: K)
    ensures Lookup(PutAll(d, entries), k) == if LastValue(entries, k).Some? then LastValue(entries, k) else Lookup(d, k)
    decreases |entries|
  {
    if |entries| > 0 {
      var n := |entries|;
      PutAllLookup(d, entries[..n - 1], k);
      PutLookup(PutAll(d, entries[..n - 1]), entries[n - 1].0, entries[n - 1].1);
    }
  }

  lemma {:induction false} RemoveKeyLookup<K, V>(d: Dict<K, V>, k: K, k2: K)
    ensures Lookup(RemoveKey(d, k), k2) == if k2 == k then None else Lookup(d, k2)
  {
    if |d| > 0 {
      RemoveKeyLookup(d[1..], k, k2);
      if d[0].0 != k {
        assert RemoveKey(d, k)[1..] == RemoveKey(d[1..], k);
      }
    }
  }

  /** After removing the keys `ks`, exactly those keys are gone and every other key keeps its value. */
  lemma {:induction false} RemoveKeysLookup<K, V>(d: Dict<K, V>, ks: seq<K>, k: K)
    ensures Lookup(RemoveKeys(d, ks), k) == if k in ks then None else Lookup(d, k)
    decreases |ks|
  {
    if |ks| > 0 {
      var n := |ks|;
      RemoveKeysLookup(d, ks[..n - 1], k);
      RemoveKeyLookup(RemoveKeys(d, ks[..n - 1]), ks[n - 1], k);
      assert ks == ks[..n - 1] + [ks[n - 1]];
    }
  }
}
