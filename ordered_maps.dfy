/**
 * A dictionary that remembers insertion order, as Python's `dict` does:
 * assigning to an existing key keeps that key's position, assigning to a
 * new key appends it, and popping a key removes it from the order.
 */
module OrderedMaps {
  import opened Wrappers

  /** No key occurs twice in `s`. */
  ghost predicate Distinct<K>(s: seq<K>)
  {
    forall i, j :: 0 <= i < j < |s| ==> s[i] != s[j]
  }

  /** `s` without the occurrences of `k`, the rest in their order. */
  function Without<K(==,!new)>(s: seq<K>, k: K): (r: seq<K>)
    ensures forall x :: x in r <==> x in s && x != k
    ensures |r| <= |s|
    ensures Distinct(s) ==> Distinct(r)
    ensures Distinct(s) && k in s ==> |r| == |s| - 1
    ensures k !in s ==> r == s
  {
    if s == [] then []
    else if s[0] == k then Without(s[1..], k)
    else
      var t := Without(s[1..], k);
      assert Distinct(s) ==> Distinct(s[1..]) && s[0] !in s[1..] by {
        if Distinct(s) {
          forall j | 0 <= j < |s[1..]| ensures s[1..][j] != s[0] { assert s[1..][j] == s[j + 1]; }
        }
      }
      [s[0]] + t
  }

  /** Removing the key at position `i` of a distinct sequence keeps the others in their order. */
  lemma {:induction false} WithoutAt<K(!new)>(s: seq<K>, k: K, i: nat)
    requires Distinct(s) && i < |s| && s[i] == k
    ensures Without(s, k) == s[..i] + s[i + 1..]
    decreases |s|
  {
    if i == 0 {
      assert k !in s[1..] by {
        forall j | 0 <= j < |s[1..]| ensures s[1..][j] != k { assert s[1..][j] == s[j + 1]; }
      }
      assert s[..0] + s[1..] == s[1..];
    } else {
      var tail := s[1..];
      DistinctTail(s);
      assert s[0] != k;
      WithoutAt(tail, k, i - 1);
      assert s[..i] == [s[0]] + tail[..i - 1];
      assert s[i + 1..] == tail[i..];
      calc {
        Without(s, k);
        [s[0]] + Without(tail, k);
        [s[0]] + (tail[..i - 1] + tail[i..]);
        ([s[0]] + tail[..i - 1]) + tail[i..];
        s[..i] + s[i + 1..];
      }
    }
  }

  lemma DistinctTail<K>(s: seq<K>)
    requires Distinct(s) && s != []
    ensures Distinct(s[1..])
  {
    forall a, b | 0 <= a < b < |s[1..]| ensures s[1..][a] != s[1..][b] {
      assert s[1..][a] == s[a + 1] && s[1..][b] == s[b + 1];
    }
  }


  datatype OrderedMap<K(==,!new), V> = OrderedMap(keys: seq<K>, entries: map<K, V>)
  {
    /** The order lists every key exactly once. */
    ghost predicate Valid()
    {
      Distinct(keys) && (forall k :: k in keys <==> k in entries)
    }

    /** `d.get(k, None)`. */
    function Get(k: K): (r: Option<V>)
      ensures r.Some? <==> k in entries
      ensures r.Some? ==> r.value == entries[k]
    {
      if k in entries then Some(entries[k]) else None
    }

    /** `d[k] = v`. */
    function Put(k: K, v: V): (r: OrderedMap<K, V>)
      requires Valid()
      ensures r.Valid()
      ensures r.Get(k) == Some(v)
      ensures forall k' :: k' != k ==> r.Get(k') == Get(k')
      ensures k in entries ==> r.keys == keys
      ensures k !in entries ==> r.keys == keys + [k]
    {
      OrderedMap(if k in entries then keys else keys + [k], entries[k := v])
    }

    /** `d.pop(k, None)`, the result being the dictionary afterwards. */
    function Remove(k: K): (r: OrderedMap<K, V>)
      requires Valid()
      ensures r.Valid()
      ensures r.Get(k) == None
      ensures forall k' :: k' != k ==> r.Get(k') == Get(k')
      ensures r.keys == Without(keys, k)
      ensures k !in entries ==> r == this
    {
      OrderedMap(Without(keys, k), entries - {k})
    }

    /** `list(d.values())`: the values in key order. */
    function Values(): (r: seq<V>)
      requires Valid()
      ensures |r| == |keys|
      ensures forall i :: 0 <= i < |keys| ==> r[i] == entries[keys[i]]
    {
      seq(|keys|, i requires 0 <= i < |keys| => entries[keys[i]])
    }
  }

  /** A fresh, empty dictionary. */
  function Empty<K(==,!new), V>(): (r: OrderedMap<K, V>)
    ensures r.Valid() && r.keys == [] && r.entries == map[]
  {
    OrderedMap([], map[])
  }

  /** Appending a new key appends its value to `values()`: insertion order. */
  lemma PutNewAppends<K(!new), V>(m: OrderedMap<K, V>, k: K, v: V)
    requires m.Valid() && k !in m.entries
    ensures m.Put(k, v).Values() == m.Values() + [v]
  {
    var r := m.Put(k, v);
    var rv, mv := r.Values(), m.Values();
    assert r.keys == m.keys + [k];
    assert rv[|m.keys|] == v;
    forall i | 0 <= i < |m.keys|
      ensures rv[i] == mv[i]
    {
      assert r.keys[i] == m.keys[i] && m.keys[i] in m.entries && m.keys[i] != k;
    }
    assert rv == mv + [v];
  }

  /** Overwriting an existing key replaces its value in place: the order is kept. */
  lemma PutExistingReplaces<K(!new), V>(m: OrderedMap<K, V>, k: K, v: V, i: nat)
    requires m.Valid() && i < |m.keys| && m.keys[i] == k
    ensures m.Put(k, v).Values() == m.Values()[i := v]
  {
    var r := m.Put(k, v);
    forall j | 0 <= j < |m.keys|
      ensures r.Values()[j] == m.Values()[i := v][j]
    {
      if j != i {
        assert m.keys[j] != k;
      }
    }
  }
}
