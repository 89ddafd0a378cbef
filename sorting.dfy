/** A stable insertion sort by a "may come first" relation, standing in for
    `Array.prototype.sort` with a comparator (stable in Node). */
module Sorting {
  import opened Dedupe

  /** `le(a, b)`: the comparator does not put `b` strictly before `a`. */
  ghost predicate Total<T(!new)>(le: (T, T) -> bool) {
    forall a, b :: le(a, b) || le(b, a)
  }

  ghost predicate Transitive<T(!new)>(le: (T, T) -> bool) {
    forall a, b, c :: le(a, b) && le(b, c) ==> le(a, c)
  }

  predicate SortedBy<T>(s: seq<T>, le: (T, T) -> bool) {
    forall i, j :: 0 <= i < j < |s| ==> le(s[i], s[j])
  }

  /** Insert `x` before the first element it may precede. */
  function InsertBy<T(==)>(x: T, s: seq<T>, le: (T, T) -> bool): (r: seq<T>)
    ensures multiset(r) == multiset(s) + multiset{x}
    decreases |s|
  {
    if |s| == 0 then [x]
    else if le(x, s[0]) then [x] + s
    else
      assert s == [s[0]] + s[1..];
      [s[0]] + InsertBy(x, s[1..], le)
  }

  /** Sorts `s`; the result is a permutation of `s`. */
  function SortBy<T(==)>(s: seq<T>, le: (T, T) -> bool): (r: seq<T>)
    ensures multiset(r) == multiset(s)
    decreases |s|
  {
    if |s| == 0 then []
    else
      assert s == [s[0]] + s[1..];
      InsertBy(s[0], SortBy(s[1..], le), le)
  }

  lemma {:induction false} InsertSorted<T(!new)>(x: T, s: seq<T>, le: (T, T) -> bool)
    requires Total(le) && Transitive(le)
    requires SortedBy(s, le)
    ensures SortedBy(InsertBy(x, s, le), le)
    decreases |s|
  {
    if |s| > 0 && !le(x, s[0]) {
      InsertSorted(x, s[1..], le);
      var t := InsertBy(x, s[1..], le);
      assert le(s[0], x);
      forall j | 0 <= j < |t| ensures le(s[0], t[j]) {
        assert t[j] in multiset(t);
        assert t[j] == x || t[j] in multiset(s[1..]);
        if t[j] != x {
          var k :| 0 <= k < |s[1..]| && s[1..][k] == t[j];
          assert s[k + 1] == t[j];
        }
      }
    }
  }

  /** Under a total preorder the result is sorted. */
  lemma {:induction false} SortSorted<T(!new)>(s: seq<T>, le: (T, T) -> bool)
    requires Total(le) && Transitive(le)
    ensures SortedBy(SortBy(s, le), le)
    decreases |s|
  {
    if |s| > 0 {
      SortSorted(s[1..], le);
      InsertSorted(s[0], SortBy(s[1..], le), le);
    }
  }

  /** Sorting an already sorted sequence leaves it as it is. */
  lemma {:induction false} SortOfSorted<T>(s: seq<T>, le: (T, T) -> bool)
    requires SortedBy(s, le)
    ensures SortBy(s, le) == s
    decreases |s|
  {
    if |s| > 0 {
      SortOfSorted(s[1..], le);
      assert s == [s[0]] + s[1..];
    }
  }

  /** Inserting an element with a fresh key keeps the keys unique. */
  lemma {:induction false} InsertUnique<T, K>(x: T, s: seq<T>, le: (T, T) -> bool, key: T -> K)
    requires UniqueKeys(s, key)
    requires key(x) !in KeysOf(s, key)
    ensures UniqueKeys(InsertBy(x, s, le), key)
    decreases |s|
  {
    if |s| == 0 || le(x, s[0]) {
      UniqueCons(x, s, key);
    } else {
      KeysOfCons(s, key);
      assert UniqueKeys(s[1..], key) by {
        forall i, j | 0 <= i < j < |s[1..]| ensures key(s[1..][i]) != key(s[1..][j]) {
          assert s[1..][i] == s[i + 1] && s[1..][j] == s[j + 1];
        }
      }
      InsertUnique(x, s[1..], le, key);
      var t := InsertBy(x, s[1..], le);
      assert multiset(t) == multiset(s[1..] + [x]);
      KeysOfPermutation(t, s[1..] + [x], key);
      KeysOfSnoc(s[1..] + [x], key, |s| - 1);
      assert (s[1..] + [x])[..|s| - 1] == s[1..];
      assert key(s[0]) !in KeysOf(s[1..], key);
      UniqueCons(s[0], t, key);
    }
  }

  /** Sorting keeps the keys unique. */
  lemma {:induction false} SortUnique<T, K>(s: seq<T>, le: (T, T) -> bool, key: T -> K)
    requires UniqueKeys(s, key)
    ensures UniqueKeys(SortBy(s, le), key)
    decreases |s|
  {
    if |s| > 0 {
      assert UniqueKeys(s[1..], key) by {
        forall i, j | 0 <= i < j < |s[1..]| ensures key(s[1..][i]) != key(s[1..][j]) {
          assert s[1..][i] == s[i + 1] && s[1..][j] == s[j + 1];
        }
      }
      SortUnique(s[1..], le, key);
      KeysOfPermutation(SortBy(s[1..], le), s[1..], key);
      assert key(s[0]) !in KeysOf(s[1..], key);
      InsertUnique(s[0], SortBy(s[1..], le), le, key);
    }
  }
}
