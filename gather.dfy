/** `{model: response for model, response in zip(models, responses)}`: the join
    point of both clients' parallel queries, taken sequentially. */
module Gather {

  function Min(a: nat, b: nat): nat {
    if a <= b then a else b
  }

  /** No later position of `keys` repeats the key at position `i`. */
  predicate LastOccurrence<K(==)>(keys: seq<K>, i: nat)
    requires i < |keys|
  {
    forall j :: i < j < |keys| ==> keys[j] != keys[i]
  }

  /** The dictionary comprehension over `zip`: `zip` stops at the shorter list and
      each later pair overwrites an earlier one with the same key. So the keys are
      exactly the zipped keys, and each is mapped to the value at its last
      position. */
  function ZipToMap<K(==), V>(keys: seq<K>, values: seq<V>): (m: map<K, V>)
    ensures m.Keys == set i | 0 <= i < Min(|keys|, |values|) :: keys[i]
    ensures forall i :: (0 <= i < Min(|keys|, |values|) && LastOccurrence(keys[..Min(|keys|, |values|)], i))
                          ==> m[keys[i]] == values[i]
  {
    var n := Min(|keys|, |values|);
    var m := PairsToMap(keys[..n], values[..n]);
    assert forall i :: 0 <= i < n ==> keys[..n][i] == keys[i] && values[..n][i] == values[i];
    m
  }

  /** The pairs of two lists of the same length, as a map built from left to
      right. */
  function PairsToMap<K(==), V>(keys: seq<K>, values: seq<V>): (m: map<K, V>)
    requires |keys| == |values|
    ensures PairsMapped(keys, values, m)
    decreases |keys|
  {
    if keys == [] then map[]
    else
      var n := |keys|;
      var prev := PairsToMap(keys[..n - 1], values[..n - 1]);
      PairsMappedSnoc(keys, values, prev);
      prev[keys[n - 1] := values[n - 1]]
  }

  /** `m` has exactly the keys of the list, and maps each key at its last position
      to the value at that position. */
  ghost predicate PairsMapped<K, V>(keys: seq<K>, values: seq<V>, m: map<K, V>)
    requires |keys| == |values|
  {
    && m.Keys == (set i | 0 <= i < |keys| :: keys[i])
    && forall i :: (0 <= i < |keys| && LastOccurrence(keys, i)) ==> keys[i] in m && m[keys[i]] == values[i]
  }

  /** Adding the last pair to the map of all the earlier ones. */
  lemma PairsMappedSnoc<K, V>(keys: seq<K>, values: seq<V>, prev: map<K, V>)
    requires |keys| == |values| && keys != []
    requires PairsMapped(keys[..|keys| - 1], values[..|keys| - 1], prev)
    ensures PairsMapped(keys, values, prev[keys[|keys| - 1] := values[|keys| - 1]])
  {
    var n := |keys|;
    var m := prev[keys[n - 1] := values[n - 1]];
    forall k | k in m ensures exists i :: 0 <= i < n && keys[i] == k {
      if k != keys[n - 1] {
        var i :| 0 <= i < n - 1 && keys[..n - 1][i] == k;
        assert keys[i] == k;
      }
    }
    forall i | 0 <= i < n ensures keys[i] in m {
      if i < n - 1 {
        assert keys[..n - 1][i] == keys[i];
      }
    }
    forall i | 0 <= i < n && LastOccurrence(keys, i) ensures m[keys[i]] == values[i] {
      if i < n - 1 {
        assert keys[i] != keys[n - 1];
        assert LastOccurrence(keys[..n - 1], i);
        assert keys[..n - 1][i] == keys[i] && values[..n - 1][i] == values[i];
      }
    }
  }

  /** When the lists have the same length, which `asyncio.gather` guarantees, every
      key appears and nothing else does. */
  lemma ZipToMapKeys<K, V>(keys: seq<K>, values: seq<V>)
    requires |keys| == |values|
    ensures ZipToMap(keys, values).Keys == set k | k in keys
  {
    var m := ZipToMap(keys, values);
    forall k | k in keys ensures k in m {
      var i :| 0 <= i < |keys| && keys[i] == k;
    }
  }

  /** With distinct keys, each key is mapped to the value at its own position. */
  lemma ZipToMapDistinct<K, V>(keys: seq<K>, values: seq<V>, i: nat)
    requires |keys| == |values| && i < |keys|
    requires forall a, b :: 0 <= a < b < |keys| ==> keys[a] != keys[b]
    ensures ZipToMap(keys, values)[keys[i]] == values[i]
  {
    assert keys[..|keys|] == keys;
    assert LastOccurrence(keys, i);
  }

  /** A key of the list has a last position. */
  lemma {:induction false} LastOccurrenceExists<K>(keys: seq<K>, k: K) returns (i: nat)
    requires k in keys
    ensures i < |keys| && keys[i] == k && LastOccurrence(keys, i)
    decreases |keys|
  {
    if keys[|keys| - 1] == k {
      i := |keys| - 1;
    } else {
      assert k in keys[..|keys| - 1] by {
        var j :| 0 <= j < |keys| && keys[j] == k;
        assert keys[..|keys| - 1][j] == k;
      }
      i := LastOccurrenceExists(keys[..|keys| - 1], k);
      assert keys[i] == keys[..|keys| - 1][i];
    }
  }

  /** When the value at each position is a function of the key there, the map
      sends each key to that function's value, duplicates or not. */
  lemma ZipToMapOfFunction<K, V>(keys: seq<K>, values: seq<V>, f: K -> V, k: K)
    requires |keys| == |values|
    requires forall i :: 0 <= i < |keys| ==> values[i] == f(keys[i])
    requires k in keys
    ensures k in ZipToMap(keys, values) && ZipToMap(keys, values)[k] == f(k)
  {
    var i := LastOccurrenceExists(keys, k);
    assert keys[..|keys|] == keys;
  }
}
