/** A JavaScript `Set` of values as the scripts use it: `add` keeps the first
    insertion, and iteration (`Array.from`, `for ... of`) follows insertion
    order. It is represented by the sequence of its elements in that order. */
module OrderedSets {

  /** No element occurs twice. */
  predicate Distinct<T(==)>(s: seq<T>) {
    forall i, j :: 0 <= i < j < |s| ==> s[i] != s[j]
  }

  /** `set.add(x)` */
  function Add<T(==)>(s: seq<T>, x: T): (r: seq<T>)
    ensures x in s ==> r == s
    ensures x !in s ==> r == s + [x]
  {
    if x in s then s else s + [x]
  }

  /** Adding the elements of `xs` one after the other. */
  function AddAll<T(==)>(s: seq<T>, xs: seq<T>): seq<T>
    decreases |xs|
  {
    if |xs| == 0 then s else Add(AddAll(s, xs[..|xs| - 1]), xs[|xs| - 1])
  }

  lemma AddAllSnoc<T>(s: seq<T>, xs: seq<T>, x: T)
    ensures AddAll(s, xs + [x]) == Add(AddAll(s, xs), x)
  {
    assert (xs + [x])[..|xs|] == xs;
  }

  /** Adding never removes or moves what is there, never duplicates, and the
      result holds exactly the old elements and the added ones. */
  lemma {:induction false} AddAllProperties<T>(s: seq<T>, xs: seq<T>)
    ensures |s| <= |AddAll(s, xs)| && AddAll(s, xs)[..|s|] == s
    ensures Distinct(s) ==> Distinct(AddAll(s, xs))
    ensures forall x :: x in AddAll(s, xs) <==> x in s || x in xs
    ensures |AddAll(s, xs)| <= |s| + |xs|
    decreases |xs|
  {
    if |xs| > 0 {
      var n := |xs| - 1;
      AddAllProperties(s, xs[..n]);
      var p := AddAll(s, xs[..n]);
      assert (p + [xs[n]])[..|s|] == p[..|s|];
      forall x ensures x in xs <==> x in xs[..n] || x == xs[n] {
        assert xs == xs[..n] + [xs[n]];
      }
    }
  }

  /** Adding `a`, then `b`, is adding `a + b`. */
  lemma {:induction false} AddAllAppend<T>(s: seq<T>, a: seq<T>, b: seq<T>)
    ensures AddAll(AddAll(s, a), b) == AddAll(s, a + b)
    decreases |b|
  {
    if |b| == 0 {
      assert a + b == a;
    } else {
      var n := |b| - 1;
      AddAllAppend(s, a, b[..n]);
      assert (a + b)[..|a + b| - 1] == a + b[..n];
    }
  }

  /** Adding elements already present changes nothing. */
  lemma {:induction false} AddAllPresent<T>(s: seq<T>, xs: seq<T>)
    requires forall i :: 0 <= i < |xs| ==> xs[i] in s
    ensures AddAll(s, xs) == s
    decreases |xs|
  {
    if |xs| > 0 {
      AddAllPresent(s, xs[..|xs| - 1]);
    }
  }
}
