/**
 * The in-memory keyspace both stores keep: a map from byte-string keys to
 * values, and removal of a list of keys in order, counting the keys that
 * were actually present.
 */
module Keyspace {
  import opened Bytes

  type Key = seq<byte>

  /** The keys a list names, as a set. */
  function KeySet(keys: seq<Key>): set<Key> {
    set k | k in keys
  }

  /** Keys removed one after the other, left to right, as the DEL loops do. */
  function DeleteKeys<V>(cache: map<Key, V>, keys: seq<Key>): (r: (map<Key, V>, nat))
    decreases |keys|
  {
    if keys == [] then (cache, 0)
    else
      var last := keys[|keys| - 1];
      var (c, n) := DeleteKeys(cache, keys[..|keys| - 1]);
      if last in c then (c - {last}, n + 1) else (c, n)
  }

  /** What DeleteKeys leaves: the listed keys are gone and every other entry keeps its value. */
  lemma {:induction false} DeleteKeysKeeps<V>(cache: map<Key, V>, keys: seq<Key>)
    ensures DeleteKeys(cache, keys).0.Keys == cache.Keys - KeySet(keys)
    ensures forall k :: k in DeleteKeys(cache, keys).0 ==> DeleteKeys(cache, keys).0[k] == cache[k]
    decreases |keys|
  {
    if keys == [] {
      assert KeySet(keys) == {};
    } else {
      var last := keys[|keys| - 1];
      var before := keys[..|keys| - 1];
      assert keys == before + [last];
      DeleteKeysKeeps(cache, before);
      var c := DeleteKeys(cache, before).0;
      var c' := DeleteKeys(cache, keys).0;
      assert KeySet(keys) == KeySet(before) + {last};
      if last in c {
        assert c' == c - {last};
        assert c'.Keys == c.Keys - {last};
      } else {
        assert c' == c;
        assert last !in cache.Keys - KeySet(before);
      }
    }
  }

  /** What DeleteKeys counts: the number of distinct listed keys that were present. */
  lemma {:induction false} DeleteKeysCount<V>(cache: map<Key, V>, keys: seq<Key>)
    ensures DeleteKeys(cache, keys).1 == |cache.Keys * KeySet(keys)|
    decreases |keys|
  {
    if keys == [] {
      assert cache.Keys * KeySet(keys) == {};
    } else {
      var last := keys[|keys| - 1];
      var before := keys[..|keys| - 1];
      assert keys == before + [last];
      assert KeySet(keys) == KeySet(before) + {last};
      DeleteKeysCount(cache, before);
      DeleteKeysKeeps(cache, before);
      CountOneMore(cache.Keys, KeySet(before), last);
    }
  }

  /** One more listed key adds one to the count exactly when it is present and new. */
  lemma {:induction false} CountOneMore(present: set<Key>, listed: set<Key>, k: Key)
    ensures |present * (listed + {k})| == |present * listed| + if k in present - listed then 1 else 0
  {
    if k in present - listed {
      assert present * (listed + {k}) == (present * listed) + {k};
    } else {
      assert present * (listed + {k}) == present * listed;
    }
  }

  /** One more key removed, as each iteration of a DEL loop does. */
  lemma {:induction false} DeleteKeysStep<V>(cache: map<Key, V>, keys: seq<Key>, i: nat)
    requires i < |keys|
    ensures var (c, n) := DeleteKeys(cache, keys[..i]);
      DeleteKeys(cache, keys[..i + 1]) == if keys[i] in c then (c - {keys[i]}, n + 1) else (c, n)
  {
    assert keys[..i + 1][..i] == keys[..i];
  }

  /** A key listed twice is removed, and counted, once. */
  lemma {:induction false} DeleteRepeated<V>(cache: map<Key, V>, k: Key)
    requires k in cache
    ensures DeleteKeys(cache, [k, k]) == (cache - {k}, 1)
  {
    assert [k, k][..1] == [k];
    assert [k][..0] == [];
    assert DeleteKeys(cache, [k]) == (cache - {k}, 1);
  }
}
