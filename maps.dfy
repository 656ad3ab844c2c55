/** Keyed tables filled by a sequence of `put` calls, where a later put of the
    same key overwrites an earlier one (the behaviour of a hash map's `put`,
    and of repeatedly resizing the same node). */
module Maps {

  /** No element occurs twice in `s`. */
  predicate Distinct<X(==)>(s: seq<X>) {
    forall i, j :: 0 <= i < j < |s| ==> s[i] != s[j]
  }

  /** `i` is the last position of `s` that holds `s[i]`. */
  predicate LastOccurrence<X(==)>(s: seq<X>, i: int)
    requires 0 <= i < |s|
  {
    forall j :: i < j < |s| ==> s[j] != s[i]
  }

  /** The map obtained from the empty map by `put(keys[0], vals[0])`, ...,
      `put(keys[n-1], vals[n-1])`, in that order. */
  function PutAll<K, V>(keys: seq<K>, vals: seq<V>): (m: map<K, V>)
    requires |keys| == |vals|
    decreases |keys|
  {
    if keys == [] then map[]
    else
      var n := |keys| - 1;
      PutAll(keys[..n], vals[..n])[keys[n] := vals[n]]
  }

  /** The table has an entry for exactly the keys put. */
  lemma {:induction false} PutAllKeys<K, V>(keys: seq<K>, vals: seq<V>)
    requires |keys| == |vals|
    ensures PutAll(keys, vals).Keys == set k | k in keys
  {
    if keys != [] {
      var n := |keys| - 1;
      PutAllKeys(keys[..n], vals[..n]);
      assert (set k | k in keys) == (set k | k in keys[..n]) + {keys[n]} by {
        assert keys == keys[..n] + [keys[n]];
      }
    }
  }

  /** One more put extends the table. */
  lemma PutAllSnoc<K, V>(keys: seq<K>, vals: seq<V>, k: K, v: V)
    requires |keys| == |vals|
    ensures PutAll(keys + [k], vals + [v]) == PutAll(keys, vals)[k := v]
  {
    assert (keys + [k])[..|keys|] == keys;
    assert (vals + [v])[..|vals|] == vals;
  }

  /** Putting into the right operand of a map union puts into the union. */
  lemma UnionUpdate<K, V>(base: map<K, V>, m: map<K, V>, k: K, v: V)
    ensures (base + m)[k := v] == base + m[k := v]
  {
  }

  /** The state after `i + 1` puts on top of `base`, from the state after `i`. */
  lemma PutAllPrefixStep<K, V>(base: map<K, V>, keys: seq<K>, vals: seq<V>, i: nat)
    requires |keys| == |vals| && i < |keys|
    ensures base + PutAll(keys[..i + 1], vals[..i + 1]) == (base + PutAll(keys[..i], vals[..i]))[keys[i] := vals[i]]
  {
    assert keys[..i + 1] == keys[..i] + [keys[i]];
    assert vals[..i + 1] == vals[..i] + [vals[i]];
    PutAllSnoc(keys[..i], vals[..i], keys[i], vals[i]);
    UnionUpdate(base, PutAll(keys[..i], vals[..i]), keys[i], vals[i]);
  }

  /** The entry for a key is the value of its LAST put. */
  lemma {:induction false} PutAllLastWins<K, V>(keys: seq<K>, vals: seq<V>, i: int)
    requires |keys| == |vals|
    requires 0 <= i < |keys|
    requires LastOccurrence(keys, i)
    ensures keys[i] in PutAll(keys, vals)
    ensures PutAll(keys, vals)[keys[i]] == vals[i]
  {
    var n := |keys| - 1;
    if i < n {
      assert keys[n] != keys[i];
      assert LastOccurrence(keys[..n], i) by {
        forall j | i < j < n
          ensures keys[..n][j] != keys[..n][i]
        {
          assert keys[..n][j] == keys[j];
        }
      }
      PutAllLastWins(keys[..n], vals[..n], i);
      assert PutAll(keys, vals) == PutAll(keys[..n], vals[..n])[keys[n] := vals[n]];
    }
  }

  /** With distinct keys every put survives: key i maps to value i, and there
      is exactly one entry per key. */
  lemma PutAllDistinct<K, V>(keys: seq<K>, vals: seq<V>)
    requires |keys| == |vals|
    requires Distinct(keys)
    ensures |PutAll(keys, vals)| == |keys|
    ensures forall i :: 0 <= i < |keys| ==> keys[i] in PutAll(keys, vals) && PutAll(keys, vals)[keys[i]] == vals[i]
  {
    forall i | 0 <= i < |keys|
      ensures keys[i] in PutAll(keys, vals) && PutAll(keys, vals)[keys[i]] == vals[i]
    {
      PutAllLastWins(keys, vals, i);
    }
    PutAllKeys(keys, vals);
    DistinctCard(keys);
  }

  /** A sequence without repetitions has as many distinct elements as entries. */
  lemma {:induction false} DistinctCard<X>(s: seq<X>)
    requires Distinct(s)
    ensures |set x | x in s| == |s|
  {
    if s != [] {
      var n := |s| - 1;
      assert Distinct(s[..n]);
      DistinctCard(s[..n]);
      assert (set x | x in s) == (set x | x in s[..n]) + {s[n]};
      assert s[n] !in (set x | x in s[..n]);
    }
  }

  /** The value of every entry is one of the values put. */
  lemma {:induction false} PutAllValues<K, V>(keys: seq<K>, vals: seq<V>, k: K)
    requires |keys| == |vals|
    requires k in PutAll(keys, vals)
    ensures exists i :: 0 <= i < |keys| && keys[i] == k && PutAll(keys, vals)[k] == vals[i]
  {
    var n := |keys| - 1;
    if keys[n] != k {
      PutAllValues(keys[..n], vals[..n], k);
      var i :| 0 <= i < n && keys[..n][i] == k && PutAll(keys[..n], vals[..n])[k] == vals[..n][i];
      assert keys[i] == k && PutAll(keys, vals)[k] == vals[i];
    }
  }
}
