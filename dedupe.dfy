/** First-occurrence deduplication, the idiom the scripts repeat with several keys:

        arr.filter((e, idx, a) => a.findIndex(x => key(x) === key(e)) === idx)

    `KeepFirst` is that filter exactly as written; `DistinctBy` is the
    left-to-right "seen set" formulation the extractors use. They are proved
    equal, and the properties (subsequence, unique keys, every key kept with
    its first occurrence, idempotence) are proved once, for any key. */
module Dedupe {

  /** `a.findIndex(x => key(x) === k)`: the first index whose key is `k`, or -1. */
  function FindIndex<T, K(==)>(s: seq<T>, key: T -> K, k: K): (r: int)
    ensures -1 <= r < |s|
    ensures r == -1 <==> forall j :: 0 <= j < |s| ==> key(s[j]) != k
    ensures 0 <= r ==> key(s[r]) == k && forall j :: 0 <= j < r ==> key(s[j]) != k
    decreases |s|
  {
    if |s| == 0 then -1
    else if key(s[0]) == k then 0
    else
      var r := FindIndex(s[1..], key, k);
      if r == -1 then -1 else r + 1
  }

  /** The keys of the elements of `s`. */
  function KeysOf<T, K>(s: seq<T>, key: T -> K): set<K> {
    set i | 0 <= i < |s| :: key(s[i])
  }

  /** The elements `s[i..]` that pass the `findIndex(...) === idx` test. */
  function FilterFrom<T, K(==)>(s: seq<T>, key: T -> K, i: nat): seq<T>
    requires i <= |s|
    decreases |s| - i
  {
    if i == |s| then []
    else (if FindIndex(s, key, key(s[i])) == i then [s[i]] else []) + FilterFrom(s, key, i + 1)
  }

  /** The deduplicating filter exactly as the scripts write it. */
  function KeepFirst<T, K(==)>(s: seq<T>, key: T -> K): seq<T> {
    FilterFrom(s, key, 0)
  }

  /** Reference formulation: walk left to right, keep an element when its key
      has not been seen, and remember the key. */
  function DistinctBy<T, K(==)>(s: seq<T>, key: T -> K, seen: set<K>): seq<T>
    decreases |s|
  {
    if |s| == 0 then []
    else if key(s[0]) in seen then DistinctBy(s[1..], key, seen)
    else [s[0]] + DistinctBy(s[1..], key, seen + {key(s[0])})
  }

  /** `a` can be obtained from `b` by deleting elements. */
  predicate IsSubsequence<T(==)>(a: seq<T>, b: seq<T>)
    decreases |b|
  {
    |a| == 0 || (|b| > 0 && ((a[0] == b[0] && IsSubsequence(a[1..], b[1..])) || IsSubsequence(a, b[1..])))
  }

  /** No two elements share a key. */
  predicate UniqueKeys<T, K(==)>(s: seq<T>, key: T -> K) {
    forall i, j :: 0 <= i < j < |s| ==> key(s[i]) != key(s[j])
  }

  lemma KeysOfCons<T, K>(s: seq<T>, key: T -> K)
    requires |s| > 0
    ensures KeysOf(s, key) == {key(s[0])} + KeysOf(s[1..], key)
  {
    var a, b := KeysOf(s, key), {key(s[0])} + KeysOf(s[1..], key);
    forall k | k in a ensures k in b {
      var i :| 0 <= i < |s| && key(s[i]) == k;
      if i > 0 { assert key(s[1..][i - 1]) == k; }
    }
    forall k | k in b ensures k in a {
      if k != key(s[0]) {
        var i :| 0 <= i < |s| - 1 && key(s[1..][i]) == k;
        assert key(s[i + 1]) == k;
      }
    }
  }

  /** Two sequences with the same elements have the same keys. */
  lemma KeysOfPermutation<T, K>(a: seq<T>, b: seq<T>, key: T -> K)
    requires multiset(a) == multiset(b)
    ensures KeysOf(a, key) == KeysOf(b, key)
  {
    forall k | k in KeysOf(a, key) ensures k in KeysOf(b, key) {
      var i :| 0 <= i < |a| && key(a[i]) == k;
      assert a[i] in multiset(b);
      var j :| 0 <= j < |b| && b[j] == a[i];
    }
    forall k | k in KeysOf(b, key) ensures k in KeysOf(a, key) {
      var j :| 0 <= j < |b| && key(b[j]) == k;
      assert b[j] in multiset(a);
      var i :| 0 <= i < |a| && a[i] == b[j];
    }
  }

  /** Putting an element with a fresh key in front keeps the keys unique. */
  lemma UniqueCons<T, K>(x: T, s: seq<T>, key: T -> K)
    requires UniqueKeys(s, key)
    requires key(x) !in KeysOf(s, key)
    ensures UniqueKeys([x] + s, key)
  {
    var t := [x] + s;
    forall i, j | 0 <= i < j < |t| ensures key(t[i]) != key(t[j]) {
      if i == 0 {
        assert t[j] == s[j - 1];
      } else {
        assert t[i] == s[i - 1] && t[j] == s[j - 1];
      }
    }
  }

  lemma KeysOfSnoc<T, K>(s: seq<T>, key: T -> K, i: nat)
    requires i < |s|
    ensures KeysOf(s[..i + 1], key) == KeysOf(s[..i], key) + {key(s[i])}
  {
    var a, b := KeysOf(s[..i + 1], key), KeysOf(s[..i], key) + {key(s[i])};
    forall k | k in a ensures k in b {
      var j :| 0 <= j < i + 1 && key(s[..i + 1][j]) == k;
      if j < i { assert key(s[..i][j]) == k; }
    }
    forall k | k in b ensures k in a {
      if k == key(s[i]) {
        assert key(s[..i + 1][i]) == k;
      } else {
        var j :| 0 <= j < i && key(s[..i][j]) == k;
        assert key(s[..i + 1][j]) == k;
      }
    }
  }

  /** The `findIndex` test keeps `s[i]` exactly when no earlier element has its key. */
  lemma FindIndexIsFirst<T, K>(s: seq<T>, key: T -> K, i: nat)
    requires i < |s|
    ensures FindIndex(s, key, key(s[i])) == i <==> key(s[i]) !in KeysOf(s[..i], key)
  {
    var k := key(s[i]);
    var r := FindIndex(s, key, k);
    if k in KeysOf(s[..i], key) {
      var j :| 0 <= j < i && key(s[..i][j]) == k;
      assert key(s[j]) == k;
    } else {
      forall j | 0 <= j < i ensures key(s[j]) != k {
        assert s[..i][j] == s[j];
      }
    }
  }

  lemma {:induction false} FilterFromIsDistinct<T, K>(s: seq<T>, key: T -> K, i: nat)
    requires i <= |s|
    ensures FilterFrom(s, key, i) == DistinctBy(s[i..], key, KeysOf(s[..i], key))
    decreases |s| - i
  {
    if i < |s| {
      FilterFromIsDistinct(s, key, i + 1);
      FindIndexIsFirst(s, key, i);
      KeysOfSnoc(s, key, i);
      var seen := KeysOf(s[..i], key);
      var isNew := key(s[i]) !in seen;
      var tail := FilterFrom(s, key, i + 1);
      assert FilterFrom(s, key, i) == (if isNew then [s[i]] else []) + tail;
      assert s[i..][0] == s[i] && s[i..][1..] == s[i + 1..];
      if isNew {
        assert DistinctBy(s[i..], key, seen) == [s[i]] + DistinctBy(s[i + 1..], key, seen + {key(s[i])});
      } else {
        assert seen + {key(s[i])} == seen;
        assert DistinctBy(s[i..], key, seen) == DistinctBy(s[i + 1..], key, seen);
      }
    }
  }

  /** The filter as written computes the reference formulation. */
  lemma KeepFirstIsDistinct<T, K>(s: seq<T>, key: T -> K)
    ensures KeepFirst(s, key) == DistinctBy(s, key, {})
  {
    FilterFromIsDistinct(s, key, 0);
    assert s[..0] == [] && s[0..] == s;
    assert KeysOf(s[..0], key) == {};
  }

  /** The output is a subsequence of the input: order kept, nothing invented. */
  lemma {:induction false} DistinctIsSubsequence<T, K>(s: seq<T>, key: T -> K, seen: set<K>)
    ensures IsSubsequence(DistinctBy(s, key, seen), s)
    decreases |s|
  {
    if |s| > 0 {
      if key(s[0]) in seen {
        DistinctIsSubsequence(s[1..], key, seen);
      } else {
        DistinctIsSubsequence(s[1..], key, seen + {key(s[0])});
      }
    }
  }

  /** No kept key was already seen, and no two kept elements share a key. */
  lemma {:induction false} DistinctKeysFresh<T, K>(s: seq<T>, key: T -> K, seen: set<K>)
    ensures forall i :: 0 <= i < |DistinctBy(s, key, seen)| ==> key(DistinctBy(s, key, seen)[i]) !in seen
    ensures UniqueKeys(DistinctBy(s, key, seen), key)
    decreases |s|
  {
    if |s| > 0 {
      if key(s[0]) in seen {
        DistinctKeysFresh(s[1..], key, seen);
      } else {
        DistinctKeysFresh(s[1..], key, seen + {key(s[0])});
        var r := DistinctBy(s, key, seen);
        assert r == [s[0]] + DistinctBy(s[1..], key, seen + {key(s[0])});
      }
    }
  }

  /** Coverage: the output has exactly the input's keys that were not already seen. */
  lemma {:induction false} DistinctKeys<T, K>(s: seq<T>, key: T -> K, seen: set<K>)
    ensures KeysOf(DistinctBy(s, key, seen), key) == KeysOf(s, key) - seen
    decreases |s|
  {
    if |s| > 0 {
      KeysOfCons(s, key);
      var r := DistinctBy(s, key, seen);
      if key(s[0]) in seen {
        DistinctKeys(s[1..], key, seen);
      } else {
        DistinctKeys(s[1..], key, seen + {key(s[0])});
        KeysOfCons(r, key);
        assert r[1..] == DistinctBy(s[1..], key, seen + {key(s[0])});
      }
    }
  }

  /** Every kept element is the first element of the input with its key. */
  lemma {:induction false} DistinctKeepsFirst<T, K>(s: seq<T>, key: T -> K, seen: set<K>)
    ensures forall x :: x in DistinctBy(s, key, seen) ==>
      0 <= FindIndex(s, key, key(x)) && s[FindIndex(s, key, key(x))] == x
    decreases |s|
  {
    if |s| > 0 {
      var seen' := if key(s[0]) in seen then seen else seen + {key(s[0])};
      DistinctKeepsFirst(s[1..], key, seen');
      DistinctKeysFresh(s[1..], key, seen');
      var r := DistinctBy(s, key, seen);
      forall x | x in r ensures 0 <= FindIndex(s, key, key(x)) && s[FindIndex(s, key, key(x))] == x {
        if x in DistinctBy(s[1..], key, seen') {
          var i :| 0 <= i < |DistinctBy(s[1..], key, seen')| && DistinctBy(s[1..], key, seen')[i] == x;
          assert key(x) != key(s[0]);
        }
      }
    }
  }

  /** A sequence whose keys are unique and unseen passes through unchanged. */
  lemma {:induction false} DistinctOfUnique<T, K>(s: seq<T>, key: T -> K, seen: set<K>)
    requires UniqueKeys(s, key)
    requires forall i :: 0 <= i < |s| ==> key(s[i]) !in seen
    ensures DistinctBy(s, key, seen) == s
    decreases |s|
  {
    if |s| > 0 {
      DistinctOfUnique(s[1..], key, seen + {key(s[0])});
    }
  }

  /** Deduplicating twice is deduplicating once. */
  lemma DistinctIdempotent<T, K>(s: seq<T>, key: T -> K)
    ensures DistinctBy(DistinctBy(s, key, {}), key, {}) == DistinctBy(s, key, {})
  {
    DistinctKeysFresh(s, key, {});
    DistinctOfUnique(DistinctBy(s, key, {}), key, {});
  }

  /** Every key of the input is represented, by its first occurrence. */
  lemma KeepFirstCovers<T, K>(s: seq<T>, key: T -> K, i: nat)
    requires i < |s|
    ensures 0 <= FindIndex(s, key, key(s[i])) <= i
    ensures s[FindIndex(s, key, key(s[i]))] in KeepFirst(s, key)
  {
    var r := KeepFirst(s, key);
    KeepFirstIsDistinct(s, key);
    DistinctKeys(s, key, {});
    assert key(s[i]) in KeysOf(s, key);
    assert key(s[i]) in KeysOf(r, key);
    var j :| 0 <= j < |r| && key(r[j]) == key(s[i]);
    DistinctKeepsFirst(s, key, {});
    assert r[j] in r;
  }

  /** The properties of the scripts' filter, for any key. */
  lemma KeepFirstProperties<T, K>(s: seq<T>, key: T -> K)
    ensures IsSubsequence(KeepFirst(s, key), s)
    ensures UniqueKeys(KeepFirst(s, key), key)
    ensures KeysOf(KeepFirst(s, key), key) == KeysOf(s, key)
    ensures forall x :: x in KeepFirst(s, key) ==>
      0 <= FindIndex(s, key, key(x)) && s[FindIndex(s, key, key(x))] == x
    ensures KeepFirst(KeepFirst(s, key), key) == KeepFirst(s, key)
  {
    KeepFirstIsDistinct(s, key);
    DistinctIsSubsequence(s, key, {});
    DistinctKeysFresh(s, key, {});
    DistinctKeys(s, key, {});
    DistinctKeepsFirst(s, key, {});
    KeepFirstIsDistinct(KeepFirst(s, key), key);
    DistinctIdempotent(s, key);
  }

  /** A subsequence is no longer than the sequence it comes from. */
  lemma {:induction false} SubsequenceLength<T>(a: seq<T>, b: seq<T>)
    requires IsSubsequence(a, b)
    ensures |a| <= |b|
    decreases |b|
  {
    if |a| > 0 {
      if a[0] == b[0] && IsSubsequence(a[1..], b[1..]) {
        SubsequenceLength(a[1..], b[1..]);
      } else {
        SubsequenceLength(a, b[1..]);
      }
    }
  }

  /** Deleting a prefix of the longer sequence keeps a subsequence one. */
  lemma {:induction false} SubsequenceDrop<T>(a: seq<T>, b: seq<T>, k: nat)
    requires k <= |b| && IsSubsequence(a, b[k..])
    ensures IsSubsequence(a, b)
    decreases k
  {
    if k > 0 {
      assert b[1..][k - 1..] == b[k..];
      SubsequenceDrop(a, b[1..], k - 1);
    }
  }

  /** A contiguous slice is a subsequence. */
  lemma {:induction false} SubsequenceSlice<T>(s: seq<T>, lo: nat, hi: nat)
    requires lo <= hi <= |s|
    ensures IsSubsequence(s[lo..hi], s)
    decreases hi
  {
    if lo < hi {
      if lo == 0 {
        SubsequenceSlice(s[1..], 0, hi - 1);
        assert s[lo..hi][1..] == s[1..][0..hi - 1];
      } else {
        SubsequenceSlice(s[lo..], 0, hi - lo);
        assert s[lo..][0..hi - lo] == s[lo..hi];
        SubsequenceDrop(s[lo..hi], s, lo);
      }
    }
  }

  /** A subsequence of a subsequence is a subsequence. */
  lemma {:induction false} SubsequenceTransitive<T>(a: seq<T>, b: seq<T>, c: seq<T>)
    requires IsSubsequence(a, b) && IsSubsequence(b, c)
    ensures IsSubsequence(a, c)
    decreases |c|
  {
    if |a| > 0 {
      if b[0] == c[0] && IsSubsequence(b[1..], c[1..]) {
        if a[0] == b[0] && IsSubsequence(a[1..], b[1..]) {
          SubsequenceTransitive(a[1..], b[1..], c[1..]);
        } else {
          SubsequenceTransitive(a, b[1..], c[1..]);
        }
      } else {
        SubsequenceTransitive(a, b, c[1..]);
      }
    }
  }

  /** Deduplicating a concatenation: the second part is filtered against the
      keys already seen, including every key of the first part. */
  lemma {:induction false} DistinctAppend<T, K>(a: seq<T>, b: seq<T>, key: T -> K, seen: set<K>)
    ensures DistinctBy(a + b, key, seen) == DistinctBy(a, key, seen) + DistinctBy(b, key, seen + KeysOf(a, key))
    decreases |a|
  {
    if |a| == 0 {
      assert a + b == b;
      assert KeysOf(a, key) == {};
      assert seen + KeysOf(a, key) == seen;
    } else {
      assert (a + b)[0] == a[0] && (a + b)[1..] == a[1..] + b;
      KeysOfCons(a, key);
      var seen' := if key(a[0]) in seen then seen else seen + {key(a[0])};
      DistinctAppend(a[1..], b, key, seen');
      assert seen' + KeysOf(a[1..], key) == seen + KeysOf(a, key);
    }
  }

  /** One step of the left-to-right walk: the next element is kept exactly
      when its key is neither in `seen` nor among the keys before it. */
  lemma DistinctSnoc<T, K>(s: seq<T>, x: T, key: T -> K, seen: set<K>)
    ensures DistinctBy(s + [x], key, seen) ==
      DistinctBy(s, key, seen) + (if key(x) in seen + KeysOf(s, key) then [] else [x])
  {
    DistinctAppend(s, [x], key, seen);
    var seen' := seen + KeysOf(s, key);
    assert DistinctBy([x], key, seen') == if key(x) in seen' then [] else [x] + DistinctBy([x][1..], key, seen' + {key(x)});
  }

  /** Deduplicating `a + b`: all of `a`'s survivors come first, and an element
      of `b` survives only when no element of `a` has its key. */
  lemma KeepFirstPrefixWins<T, K>(a: seq<T>, b: seq<T>, key: T -> K)
    ensures KeepFirst(a + b, key) == KeepFirst(a, key) + DistinctBy(b, key, KeysOf(a, key))
    ensures forall x :: x in KeepFirst(a + b, key) && x !in KeepFirst(a, key) ==> key(x) !in KeysOf(a, key)
  {
    KeepFirstIsDistinct(a + b, key);
    KeepFirstIsDistinct(a, key);
    DistinctAppend(a, b, key, {});
    assert {} + KeysOf(a, key) == KeysOf(a, key);
    DistinctKeysFresh(b, key, KeysOf(a, key));
    var r := DistinctBy(b, key, KeysOf(a, key));
    forall x | x in KeepFirst(a + b, key) && x !in KeepFirst(a, key) ensures key(x) !in KeysOf(a, key) {
      assert x in r;
      var i :| 0 <= i < |r| && r[i] == x;
    }
  }

  /** The survivor of a key present in the first part comes from the first part. */
  lemma PrefixKeyWinner<T, K>(a: seq<T>, b: seq<T>, key: T -> K, x: T)
    requires x in KeepFirst(a + b, key)
    requires key(x) in KeysOf(a, key)
    ensures x in a
  {
    KeepFirstPrefixWins(a, b, key);
    KeepFirstProperties(a, key);
    if x in KeepFirst(a, key) {
      var i :| 0 <= i < |KeepFirst(a, key)| && KeepFirst(a, key)[i] == x;
      assert 0 <= FindIndex(a, key, key(x)) && a[FindIndex(a, key, key(x))] == x;
    }
  }
}
