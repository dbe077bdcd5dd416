/** Going through the entries of a map in an order nobody promises. */
module MapOrder {
  method PickOne<K>(keys: set<K>) returns (k: K)
    requires keys != {}
    ensures k in keys
  {
    k :| k in keys;
  }

  /** The keys of a map, each once. */
  method InSomeOrder<K>(keys: set<K>) returns (order: seq<K>)
    ensures forall k :: k in order <==> k in keys
    ensures Distinct(order)
  {
    order := [];
    var left := keys;
    while left != {}
      invariant left <= keys && forall k :: k in order <==> k in keys && k !in left
      invariant Distinct(order)
      decreases |left|
    {
      var k :| k in left;
      order := order + [k];
      left := left - {k};
    }
  }

  ghost predicate Distinct<T>(s: seq<T>) {
    s == [] || (s[|s| - 1] !in s[..|s| - 1] && Distinct(s[..|s| - 1]))
  }

  /** The part of a map that some of its keys make up. */
  function Part<K, V>(m: map<K, V>, keys: seq<K>): (part: map<K, V>)
    requires forall k :: k in keys ==> k in m
    ensures part.Keys == set k | k in keys
  {
    if keys == [] then map[] else Part(m, keys[..|keys| - 1])[keys[|keys| - 1] := m[keys[|keys| - 1]]]
  }

  lemma {:induction false} PartAgrees<K, V>(m: map<K, V>, keys: seq<K>)
    requires forall k :: k in keys ==> k in m
    ensures forall k :: k in keys ==> Part(m, keys)[k] == m[k]
  {
    if keys != [] { PartAgrees(m, keys[..|keys| - 1]); }
  }

  lemma {:induction false} DistinctPrefix<T>(s: seq<T>, i: nat)
    requires Distinct(s) && i < |s|
    ensures s[i] !in s[..i]
  {
    if i < |s| - 1 {
      DistinctPrefix(s[..|s| - 1], i);
      assert s[..|s| - 1][..i] == s[..i];
    }
  }

  /** The part grows by the next key, which it does not have yet. */
  lemma PartGrows<K, V>(m: map<K, V>, keys: seq<K>, i: nat)
    requires Distinct(keys) && i < |keys| && forall k :: k in keys ==> k in m
    ensures forall k :: k in keys[..i + 1] ==> k in m
    ensures keys[i] !in Part(m, keys[..i])
    ensures Part(m, keys[..i + 1]) == Part(m, keys[..i])[keys[i] := m[keys[i]]]
  {
    DistinctPrefix(keys, i);
    assert keys[..i + 1][..i] == keys[..i];
  }

  lemma PartIsWhole<K, V>(m: map<K, V>, keys: seq<K>)
    requires forall k :: k in keys <==> k in m
    ensures Part(m, keys[..|keys|]) == m
  {
    assert keys[..|keys|] == keys;
    PartAgrees(m, keys);
  }
}
