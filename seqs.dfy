/** Sequence helpers: "keep the first element of each key" (the `seen`-set loops of the
    source) and a JavaScript-style `slice(0, n)`. */
module Seqs {

  function KeySet<T, K(==)>(s: seq<T>, key: T -> K): set<K> {
    set i | 0 <= i < |s| :: key(s[i])
  }

  predicate DistinctKeys<T, K(==)>(s: seq<T>, key: T -> K) {
    forall i, j :: 0 <= i < j < |s| ==> key(s[i]) != key(s[j])
  }

  lemma KeySetSnoc<T, K>(s: seq<T>, x: T, key: T -> K)
    ensures KeySet(s + [x], key) == KeySet(s, key) + {key(x)}
  {
    var r := s + [x];
    assert forall i :: 0 <= i < |s| ==> r[i] == s[i];
    assert r[|s|] == x;
    forall k | k in KeySet(r, key) ensures k in KeySet(s, key) + {key(x)} {
      var i :| 0 <= i < |r| && key(r[i]) == k;
      if i < |s| { assert key(s[i]) in KeySet(s, key); }
    }
    forall k | k in KeySet(s, key) + {key(x)} ensures k in KeySet(r, key) {
      if k in KeySet(s, key) {
        var i :| 0 <= i < |s| && key(s[i]) == k;
        assert key(r[i]) in KeySet(r, key);
      } else {
        assert key(r[|s|]) in KeySet(r, key);
      }
    }
  }

  /** The elements of `s` whose key has not occurred before them, in order. */
  function DedupBy<T, K(==)>(s: seq<T>, key: T -> K): seq<T>
  {
    if s == [] then []
    else
      var prev := DedupBy(s[..|s| - 1], key);
      if key(s[|s| - 1]) in KeySet(prev, key) then prev else prev + [s[|s| - 1]]
  }

  /** `s[i]` is the first element of `s` with its key. */
  predicate FirstOfKey<T, K(==)>(s: seq<T>, key: T -> K, i: int) {
    0 <= i < |s| && forall k :: 0 <= k < i ==> key(s[k]) != key(s[i])
  }

  lemma {:induction false} DedupByKeys<T, K>(s: seq<T>, key: T -> K)
    ensures DistinctKeys(DedupBy(s, key), key)
    ensures KeySet(DedupBy(s, key), key) == KeySet(s, key)
    ensures |DedupBy(s, key)| <= |s|
  {
    if s != [] {
      var init := s[..|s| - 1];
      DedupByKeys(init, key);
      var prev := DedupBy(init, key);
      assert s == init + [s[|s| - 1]];
      KeySetSnoc(init, s[|s| - 1], key);
      if key(s[|s| - 1]) !in KeySet(prev, key) {
        KeySetSnoc(prev, s[|s| - 1], key);
      }
    }
  }

  /** `x` is the first element of `s` with its key. */
  ghost predicate KeptFirst<T, K>(s: seq<T>, key: T -> K, x: T) {
    exists i :: FirstOfKey(s, key, i) && s[i] == x
  }

  /** Every kept element is the first occurrence of its key in `s`. */
  lemma {:induction false} DedupByFirst<T, K>(s: seq<T>, key: T -> K)
    ensures forall j :: 0 <= j < |DedupBy(s, key)| ==> KeptFirst(s, key, DedupBy(s, key)[j])
  {
    if s != [] {
      var init := s[..|s| - 1];
      DedupByFirst(init, key);
      var prev := DedupBy(init, key);
      var last := s[|s| - 1];
      var r := DedupBy(s, key);
      assert r == if key(last) in KeySet(prev, key) then prev else prev + [last];
      forall j | 0 <= j < |r| ensures KeptFirst(s, key, r[j]) {
        if j < |prev| {
          assert KeptFirst(init, key, prev[j]);
          var i :| FirstOfKey(init, key, i) && init[i] == prev[j];
          assert FirstOfKey(s, key, i) && s[i] == r[j];
        } else {
          DedupByKeys(init, key);
          assert key(last) !in KeySet(init, key);
          forall k | 0 <= k < |s| - 1 ensures key(s[k]) != key(last) {
            assert key(init[k]) in KeySet(init, key);
          }
          assert FirstOfKey(s, key, |s| - 1) && s[|s| - 1] == r[j];
        }
      }
    }
  }

  /** Deduplicating a prefix gives a prefix of the deduplicated whole. */
  lemma {:induction false} DedupByPrefix<T, K>(s: seq<T>, n: nat, key: T -> K)
    requires n <= |s|
    ensures var p := DedupBy(s[..n], key); var q := DedupBy(s, key);
            |p| <= |q| && q[..|p|] == p
    decreases |s| - n
  {
    if n < |s| {
      var init := s[..|s| - 1];
      DedupByPrefix(init, n, key);
      assert init[..n] == s[..n];
    } else {
      assert s[..n] == s;
    }
  }

  /** The first `n` elements, or all when there are fewer. */
  function Take<T>(s: seq<T>, n: nat): (r: seq<T>)
    ensures |r| <= n && |r| <= |s|
    ensures r == s[..|r|]
    ensures |s| <= n ==> r == s
  {
    if n >= |s| then s else s[..n]
  }
}
