/**
 * `sorted(s, key=key, reverse=True)`: a stable sort into non-increasing key
 * order. Python keeps equal-key elements in their original order even with
 * `reverse=True`; insertion that places an element before the first one
 * whose key is not larger does the same.
 */
module Sorting {

  predicate SortedDesc<T>(s: seq<T>, key: T -> int) {
    forall i, j :: 0 <= i < j < |s| ==> key(s[i]) >= key(s[j])
  }

  /** The elements of `s` whose key is `k`, in their order in `s`. */
  function WithKey<T>(s: seq<T>, key: T -> int, k: int): seq<T> {
    if s == [] then []
    else (if key(s[0]) == k then [s[0]] else []) + WithKey(s[1..], key, k)
  }

  function InsertDesc<T>(x: T, s: seq<T>, key: T -> int): seq<T> {
    if s == [] || key(s[0]) <= key(x) then [x] + s
    else [s[0]] + InsertDesc(x, s[1..], key)
  }

  function SortDesc<T>(s: seq<T>, key: T -> int): seq<T> {
    if s == [] then [] else InsertDesc(s[0], SortDesc(s[1..], key), key)
  }

  lemma {:induction false} InsertDescElements<T>(x: T, s: seq<T>, key: T -> int)
    ensures |InsertDesc(x, s, key)| == |s| + 1
    ensures multiset(InsertDesc(x, s, key)) == multiset(s) + multiset{x}
  {
    if !(s == [] || key(s[0]) <= key(x)) {
      InsertDescElements(x, s[1..], key);
      assert s == [s[0]] + s[1..];
    }
  }

  lemma {:induction false} InsertDescSorted<T>(x: T, s: seq<T>, key: T -> int)
    requires SortedDesc(s, key)
    ensures SortedDesc(InsertDesc(x, s, key), key)
  {
    var r := InsertDesc(x, s, key);
    if s == [] || key(s[0]) <= key(x) {
      assert r[1..] == s;
      forall i, j | 0 <= i < j < |r| ensures key(r[i]) >= key(r[j]) {
        if i == 0 {
          assert key(s[0]) >= key(s[j - 1]);
        }
      }
    } else {
      var t := InsertDesc(x, s[1..], key);
      InsertDescSorted(x, s[1..], key);
      InsertDescElements(x, s[1..], key);
      assert r[1..] == t;
      forall i, j | 0 <= i < j < |r| ensures key(r[i]) >= key(r[j]) {
        if i == 0 {
          assert r[j] in multiset(t);
          if r[j] != x {
            assert r[j] in multiset(s[1..]);
            var j' :| 0 <= j' < |s[1..]| && s[1..][j'] == r[j];
            assert key(s[0]) >= key(s[j' + 1]);
          }
        }
      }
    }
  }

  lemma {:induction false} InsertDescStable<T>(x: T, s: seq<T>, key: T -> int, k: int)
    requires SortedDesc(s, key)
    ensures WithKey(InsertDesc(x, s, key), key, k) == (if key(x) == k then [x] else []) + WithKey(s, key, k)
  {
    var xs := if key(x) == k then [x] else [];
    if s == [] || key(s[0]) <= key(x) {
      assert ([x] + s)[1..] == s;
      assert WithKey([x] + s, key, k) == xs + WithKey(s, key, k);
    } else {
      var h := if key(s[0]) == k then [s[0]] else [];
      var t := InsertDesc(x, s[1..], key);
      assert SortedDesc(s[1..], key);
      InsertDescStable(x, s[1..], key, k);
      assert ([s[0]] + t)[1..] == t;
      assert WithKey([s[0]] + t, key, k) == h + WithKey(t, key, k);
      assert WithKey(s, key, k) == h + WithKey(s[1..], key, k);
      assert h == [] || xs == [];
    }
  }

  /** The result of the sort is ordered by non-increasing key, holds the same
      elements, and within each key keeps the original order (stability). */
  lemma {:induction false} SortDescFacts<T>(s: seq<T>, key: T -> int)
    ensures |SortDesc(s, key)| == |s|
    ensures multiset(SortDesc(s, key)) == multiset(s)
    ensures SortedDesc(SortDesc(s, key), key)
    ensures forall k :: WithKey(SortDesc(s, key), key, k) == WithKey(s, key, k)
  {
    if s != [] {
      SortDescFacts(s[1..], key);
      var t := SortDesc(s[1..], key);
      InsertDescElements(s[0], t, key);
      InsertDescSorted(s[0], t, key);
      forall k ensures WithKey(SortDesc(s, key), key, k) == WithKey(s, key, k) {
        InsertDescStable(s[0], t, key, k);
      }
      assert s == [s[0]] + s[1..];
    }
  }

  /** Every element kept by a prefix, and only those. */
  lemma {:induction false} WithKeyPrefix<T>(s: seq<T>, n: nat, key: T -> int, k: int)
    requires n <= |s|
    ensures IsPrefix(WithKey(s[..n], key, k), WithKey(s, key, k))
  {
    if n > 0 {
      WithKeyPrefix(s[1..], n - 1, key, k);
      assert s[..n][1..] == s[1..][..n - 1];
      var h := if key(s[0]) == k then [s[0]] else [];
      var p, w := WithKey(s[1..][..n - 1], key, k), WithKey(s[1..], key, k);
      assert WithKey(s[..n], key, k) == h + p;
      assert WithKey(s, key, k) == h + w;
      assert (h + w)[..|h + p|] == h + w[..|p|];
    }
  }

  ghost predicate IsPrefix<T>(p: seq<T>, s: seq<T>) {
    |p| <= |s| && p == s[..|p|]
  }

  /** An element of a descending sequence left out of its first `n` has a
      key no larger than any of those `n`. */
  lemma LeftOutNoLarger<T>(s: seq<T>, n: nat, key: T -> int)
    requires SortedDesc(s, key) && n <= |s|
    ensures forall x, i :: x in multiset(s) - multiset(s[..n]) && 0 <= i < n ==> key(x) <= key(s[i])
  {
    assert s == s[..n] + s[n..];
    assert multiset(s) == multiset(s[..n]) + multiset(s[n..]);
    forall x, i | x in multiset(s) - multiset(s[..n]) && 0 <= i < n
      ensures key(x) <= key(s[i])
    {
      assert x in multiset(s[n..]);
      var j :| 0 <= j < |s[n..]| && s[n..][j] == x;
      assert s[n + j] == x;
    }
  }
}
