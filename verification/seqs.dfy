/**
 * Sequence helpers behind the `Array.prototype.filter` calls of the app:
 * dropping every element whose key equals a given value, in order.
 */
module Seqs {

  /** Every element of `s` whose key differs from `k`, in their original order. */
  function Without<T(!new), K(==)>(s: seq<T>, key: T -> K, k: K): (r: seq<T>)
    ensures |r| <= |s|
    ensures forall x :: x in r <==> x in s && key(x) != k
  {
    if s == [] then []
    else if key(s[0]) == k then Without(s[1..], key, k)
    else [s[0]] + Without(s[1..], key, k)
  }

  /** No two elements of `s` share a key. */
  predicate DistinctKeys<T(!new), K(==)>(s: seq<T>, key: T -> K)
  {
    forall i, j :: 0 <= i < j < |s| ==> key(s[i]) != key(s[j])
  }

  /** Filtering distributes over concatenation: each part keeps its own order. */
  lemma {:induction false} WithoutConcat<T(!new), K>(a: seq<T>, b: seq<T>, key: T -> K, k: K)
    ensures Without(a + b, key, k) == Without(a, key, k) + Without(b, key, k)
  {
    if a == [] {
      assert a + b == b;
    } else {
      assert (a + b)[1..] == a[1..] + b;
      WithoutConcat(a[1..], b, key, k);
    }
  }

  /** When no element carries the key, nothing is dropped. */
  lemma {:induction false} WithoutAbsent<T(!new), K>(s: seq<T>, key: T -> K, k: K)
    requires forall i :: 0 <= i < |s| ==> key(s[i]) != k
    ensures Without(s, key, k) == s
  {
    if s != [] {
      WithoutAbsent(s[1..], key, k);
    }
  }

  /** Dropping the only element that carries the key splices it out and keeps the rest in order. */
  lemma {:induction false} WithoutOnly<T(!new), K>(s: seq<T>, key: T -> K, k: K, j: nat)
    requires j < |s| && key(s[j]) == k
    requires forall i :: 0 <= i < |s| && i != j ==> key(s[i]) != k
    ensures Without(s, key, k) == s[..j] + s[j + 1..]
  {
    assert s == s[..j] + ([s[j]] + s[j + 1..]);
    WithoutConcat(s[..j], [s[j]] + s[j + 1..], key, k);
    WithoutConcat([s[j]], s[j + 1..], key, k);
    WithoutAbsent(s[..j], key, k);
    WithoutAbsent(s[j + 1..], key, k);
  }

  /** Filtering never introduces two elements with the same key. */
  lemma {:induction false} WithoutKeepsDistinct<T(!new), K>(s: seq<T>, key: T -> K, k: K)
    requires DistinctKeys(s, key)
    ensures DistinctKeys(Without(s, key, k), key)
  {
    if s != [] {
      WithoutKeepsDistinct(s[1..], key, k);
      var rest := Without(s[1..], key, k);
      if key(s[0]) != k {
        forall x | x in rest ensures key(x) != key(s[0]) {
          var i :| 0 <= i < |s[1..]| && s[1..][i] == x;
          assert s[i + 1] == x;
        }
        var r := [s[0]] + rest;
        forall i, j | 0 <= i < j < |r| ensures key(r[i]) != key(r[j]) {
          if i == 0 {
            assert r[j] in rest;
          } else {
            assert r[i] == rest[i - 1] && r[j] == rest[j - 1];
          }
        }
      }
    }
  }
}
