/** Removing later duplicates while keeping order: `dict.fromkeys` over artifact lists, and the
    `seen` set that filters a segment's delete files by path. */
module Dedup {

  /** Whether an element with this key occurs in `s`. */
  predicate HasKey<T, K(==)>(key: T -> K, s: seq<T>, k: K) {
    exists i :: 0 <= i < |s| && key(s[i]) == k
  }

  /** The elements whose key occurs for the first time. */
  function FirstByKey<T, K(==)>(key: T -> K, s: seq<T>): seq<T> {
    if s == [] then []
    else
      var last := |s| - 1;
      FirstByKey(key, s[..last]) + (if HasKey(key, s[..last], key(s[last])) then [] else [s[last]])
  }

  lemma {:induction false} FirstByKeySnoc<T, K>(key: T -> K, s: seq<T>, x: T)
    ensures FirstByKey(key, s + [x]) == if HasKey(key, s, key(x)) then FirstByKey(key, s) else FirstByKey(key, s) + [x]
  {
    var t := s + [x];
    assert t[..|t| - 1] == s && t[|t| - 1] == x;
  }

  ghost predicate DistinctKeys<T, K>(key: T -> K, s: seq<T>) {
    forall i, j :: 0 <= i < j < |s| ==> key(s[i]) != key(s[j])
  }

  lemma {:induction false} HasKeyAppend<T, K>(key: T -> K, a: seq<T>, b: seq<T>, k: K)
    ensures HasKey(key, a + b, k) <==> HasKey(key, a, k) || HasKey(key, b, k)
  {
    if HasKey(key, a, k) {
      var i :| 0 <= i < |a| && key(a[i]) == k;
      assert key((a + b)[i]) == k;
    }
    if HasKey(key, b, k) {
      var i :| 0 <= i < |b| && key(b[i]) == k;
      assert key((a + b)[|a| + i]) == k;
    }
    if HasKey(key, a + b, k) {
      var i :| 0 <= i < |a + b| && key((a + b)[i]) == k;
      assert if i < |a| then key(a[i]) == k else key(b[i - |a|]) == k;
    }
  }

  /** The result has the same keys, each once, and only elements of the list. */
  lemma {:induction false} FirstByKeyMeaning<T, K>(key: T -> K, s: seq<T>)
    ensures DistinctKeys(key, FirstByKey(key, s))
    ensures forall k :: HasKey(key, FirstByKey(key, s), k) <==> HasKey(key, s, k)
    ensures forall x :: x in FirstByKey(key, s) ==> x in s
    decreases |s|
  {
    if s != [] {
      var last := |s| - 1;
      var front, rest := s[..last], FirstByKey(key, s[..last]);
      FirstByKeyMeaning(key, front);
      var tail := if HasKey(key, front, key(s[last])) then [] else [s[last]];
      var out := rest + tail;
      assert s == front + [s[last]];
      forall k
        ensures HasKey(key, out, k) <==> HasKey(key, s, k)
      {
        HasKeyAppend(key, rest, tail, k);
        HasKeyAppend(key, front, [s[last]], k);
        assert HasKey(key, [s[last]], k) <==> key([s[last]][0]) == k;
        assert tail != [] ==> key(tail[0]) == key(s[last]);
      }
      forall i, j | 0 <= i < j < |out|
        ensures key(out[i]) != key(out[j])
      {
        if j == |rest| { assert HasKey(key, rest, key(rest[i])); }
      }
      assert forall x :: x in front ==> x in s;
    }
  }

  lemma {:induction false} FirstByKeyExtends<T, K>(key: T -> K, a: seq<T>, b: seq<T>)
    requires DistinctKeys(key, a)
    ensures a <= FirstByKey(key, a + b)
    decreases |a| + |b|
  {
    if b != [] {
      var last := |b| - 1;
      assert (a + b)[..|a + b| - 1] == a + b[..last];
      FirstByKeyExtends(key, a, b[..last]);
    } else if a != [] {
      var last := |a| - 1;
      assert a + b == a;
      assert a[..last] + [] == a[..last];
      FirstByKeyExtends(key, a[..last], []);
      FirstByKeyShort(key, a[..last]);
      assert !HasKey(key, a[..last], key(a[last]));
      assert a == a[..last] + [a[last]];
    }
  }

  lemma {:induction false} FirstByKeyShort<T, K>(key: T -> K, s: seq<T>)
    ensures |FirstByKey(key, s)| <= |s|
    decreases |s|
  {
    if s != [] { FirstByKeyShort(key, s[..|s| - 1]); }
  }

  /** Removing duplicates step by step gives the same list as removing them at the end. */
  lemma {:induction false} FirstByKeyTwice<T, K>(key: T -> K, a: seq<T>, b: seq<T>)
    ensures FirstByKey(key, FirstByKey(key, a) + b) == FirstByKey(key, a + b)
    decreases |b|
  {
    var first := FirstByKey(key, a);
    FirstByKeyMeaning(key, a);
    if b == [] {
      FirstByKeyExtends(key, first, []);
      FirstByKeyShort(key, first);
      assert first + [] == first && a + [] == a;
    } else {
      var last := |b| - 1;
      FirstByKeyTwice(key, a, b[..last]);
      assert first + b == first + b[..last] + [b[last]] && a + b == a + b[..last] + [b[last]];
      FirstByKeySnoc(key, first + b[..last], b[last]);
      FirstByKeySnoc(key, a + b[..last], b[last]);
      var k := key(b[last]);
      HasKeyAppend(key, first, b[..last], k);
      HasKeyAppend(key, a, b[..last], k);
      assert HasKey(key, first, k) <==> HasKey(key, a, k);
      assert HasKey(key, first + b[..last], k) <==> HasKey(key, a + b[..last], k);
    }
  }

  /** `filter(|d| seen.insert(key(d)))`. */
  method FilterSeen<T, K(==)>(key: T -> K, s: seq<T>) returns (out: seq<T>)
    ensures out == FirstByKey(key, s)
  {
    out := [];
    var seen: set<K> := {};
    for i := 0 to |s|
      invariant out == FirstByKey(key, s[..i])
      invariant forall k :: k in seen <==> HasKey(key, s[..i], k)
    {
      var k := key(s[i]);
      ghost var front, next := s[..i], s[..i + 1];
      assert next == front + [s[i]];
      FirstByKeySnoc(key, front, s[i]);
      assert k in seen <==> HasKey(key, front, k);
      if k !in seen { out := out + [s[i]]; }
      seen := seen + {k};
      forall x
        ensures x in seen <==> HasKey(key, next, x)
      {
        if HasKey(key, next, x) {
          var j :| 0 <= j < |next| && key(next[j]) == x;
          assert j < i ==> key(front[j]) == x;
        }
        if x == k { assert key(next[i]) == x; }
        if HasKey(key, front, x) {
          var j :| 0 <= j < |front| && key(front[j]) == x;
          assert key(next[j]) == x;
        }
      }
    }
    assert s[..|s|] == s;
  }
}
