/**
 * Python's insertion-ordered `dict` with string keys: the keys in the order
 * they were first inserted, and the value of each.
 */
module OrderedMaps {

  datatype OrderedMap<V> = OrderedMap(keys: seq<string>, vals: map<string, V>) {

    /** Keys are distinct and are exactly the keys of `vals`. */
    ghost predicate Valid() {
      && Distinct(keys)
      && (forall k :: k in vals <==> k in keys)
    }

    /** `d[k] = v`: a new key goes to the end; an existing key keeps its
        place and only its value changes. */
    function Put(k: string, v: V): (r: OrderedMap<V>)
      ensures Valid() ==> r.Valid()
      ensures r.vals == vals[k := v]
      ensures k in vals ==> r.keys == keys
      ensures k !in vals ==> r.keys == keys + [k]
    {
      if k in vals then OrderedMap(keys, vals[k := v])
      else OrderedMap(keys + [k], vals[k := v])
    }

    /** `del d[k]`: the key leaves the order, the others keep theirs. */
    function Remove(k: string): (r: OrderedMap<V>)
      requires Valid()
      ensures r.Valid()
      ensures r.vals == vals - {k}
      ensures r.keys == Without(keys, k)
    {
      WithoutMembers(keys, k);
      WithoutDistinct(keys, k);
      OrderedMap(Without(keys, k), vals - {k})
    }

    /** `d.items()`, in iteration order. */
    function Items(): (r: seq<(string, V)>)
      requires Valid()
      ensures |r| == |keys|
      ensures forall i :: 0 <= i < |r| ==> r[i] == (keys[i], vals[keys[i]])
    {
      seq(|keys|, i requires 0 <= i < |keys| => (keys[i], vals[keys[i]]))
    }
  }

  /** No element occurs twice. */
  ghost predicate Distinct(s: seq<string>) {
    forall i, j :: 0 <= i < j < |s| ==> s[i] != s[j]
  }

  lemma DistinctCons(x: string, t: seq<string>)
    requires Distinct(t) && x !in t
    ensures Distinct([x] + t)
  {
    forall i, j | 0 <= i < j < |[x] + t| ensures ([x] + t)[i] != ([x] + t)[j] {
      if i > 0 {
        assert ([x] + t)[i] == t[i - 1];
      }
    }
  }

  /** The map as it stood after its first `n` insertions. */
  function Prefix<V>(m: OrderedMap<V>, n: nat): (r: OrderedMap<V>)
    requires m.Valid() && n <= |m.keys|
    ensures r.Valid()
  {
    var ks := m.keys[..n];
    var r := OrderedMap(ks, map k | k in ks :: m.vals[k]);
    assert forall i, j :: 0 <= i < j < |ks| ==> ks[i] == m.keys[i] && ks[j] == m.keys[j];
    r
  }

  /** Re-inserting the items of a map in order rebuilds it step by step. */
  lemma PrefixStep<V>(m: OrderedMap<V>, n: nat)
    requires m.Valid() && n < |m.keys|
    ensures Prefix(m, n).Put(m.keys[n], m.vals[m.keys[n]]) == Prefix(m, n + 1)
  {
    var k := m.keys[n];
    assert k !in m.keys[..n];
    assert m.keys[..n + 1] == m.keys[..n] + [k];
  }

  lemma PrefixAll<V>(m: OrderedMap<V>)
    requires m.Valid()
    ensures Prefix(m, |m.keys|) == m
  {
    assert m.keys[..|m.keys|] == m.keys;
  }

  /** `{}` */
  function Empty<V>(): (r: OrderedMap<V>)
    ensures r.Valid() && r.keys == [] && r.vals == map[]
  {
    OrderedMap([], map[])
  }

  /** `s` with every occurrence of `k` dropped, the rest in order. */
  function Without(s: seq<string>, k: string): (r: seq<string>)
  {
    if s == [] then []
    else (if s[0] == k then [] else [s[0]]) + Without(s[1..], k)
  }

  lemma {:induction false} WithoutMembers(s: seq<string>, k: string)
    ensures forall x :: x in Without(s, k) <==> x in s && x != k
  {
    if s != [] {
      WithoutMembers(s[1..], k);
      assert s == [s[0]] + s[1..];
    }
  }

  lemma {:induction false} WithoutDistinct(s: seq<string>, k: string)
    requires Distinct(s)
    ensures Distinct(Without(s, k))
  {
    if s != [] {
      assert Distinct(s[1..]);
      WithoutDistinct(s[1..], k);
      WithoutMembers(s[1..], k);
      assert s[0] !in s[1..];
      if s[0] != k {
        DistinctCons(s[0], Without(s[1..], k));
      } else {
        assert Without(s, k) == Without(s[1..], k);
      }
    }
  }

  /** Dropping a key that is not there changes nothing. */
  lemma {:induction false} WithoutAbsent(s: seq<string>, k: string)
    requires k !in s
    ensures Without(s, k) == s
  {
    if s != [] {
      WithoutAbsent(s[1..], k);
    }
  }

  lemma {:induction false} WithoutAppend(s: seq<string>, t: seq<string>, k: string)
    ensures Without(s + t, k) == Without(s, k) + Without(t, k)
  {
    if s != [] {
      WithoutAppend(s[1..], t, k);
      assert (s + t)[1..] == s[1..] + t;
    } else {
      assert s + t == t;
    }
  }

  /** Inserting a fresh key and deleting it again gives back the same map,
      iteration order included. */
  lemma PutFreshThenRemove<V>(m: OrderedMap<V>, k: string, v: V)
    requires m.Valid() && k !in m.vals
    ensures m.Put(k, v).Remove(k) == m
  {
    WithoutAppend(m.keys, [k], k);
    WithoutAbsent(m.keys, k);
    assert Without([k], k) == [];
    assert m.vals[k := v] - {k} == m.vals;
  }
}
