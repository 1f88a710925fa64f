/** Sequence helpers for the LINQ operators the core uses (Take, Except, Distinct). */
module Sequences {

  /** No value occurs twice in `s`. */
  ghost predicate NoDuplicates<T(!new)>(s: seq<T>) {
    forall x :: multiset(s)[x] <= 1
  }

  /** The set of values occurring in `s`. */
  function Elements<T(==)>(s: seq<T>): set<T> {
    set x | x in s
  }

  /** The elements of `r` occur in `s` in the same order (each matched to its own position of `s`). */
  predicate IsSubsequence<T(==)>(r: seq<T>, s: seq<T>)
    decreases |s|
  {
    if r == [] then true
    else if s == [] then false
    else if r[0] == s[0] then IsSubsequence(r[1..], s[1..])
    else IsSubsequence(r, s[1..])
  }

  /**
   * `r` lists its elements in the order they first occur in `a`: each element of `r` occurs in
   * `a` before every occurrence of the elements after it.
   */
  ghost predicate FirstOrder<T>(r: seq<T>, a: seq<T>) {
    forall i, j, k :: 0 <= i < j < |r| && 0 <= k < |a| && a[k] == r[j] ==> r[i] in a[..k]
  }

  /** `min(max(count, 0), size)`: how many elements `Take(count)` yields from `size` ones. */
  function Clamp(count: int, size: nat): (r: nat)
    ensures r <= size
    ensures count <= 0 ==> r == 0
    ensures 0 <= count <= size ==> r == count
    ensures count >= size ==> r == size
  {
    if count <= 0 then 0 else if count >= size then size else count
  }

  /** LINQ `Take`: the first `count` elements, all of them if there are fewer, none for a negative count. */
  function Take<T>(s: seq<T>, count: int): (r: seq<T>)
    ensures |r| == Clamp(count, |s|)
    ensures r == s[..|r|]
  {
    s[..Clamp(count, |s|)]
  }

  /**
   * LINQ `Except` with the values already seen: the elements of `a` that are not in `seen`,
   * each kept once, at its first occurrence.
   */
  function ExceptFrom<T(==,!new)>(a: seq<T>, seen: set<T>): (r: seq<T>)
    ensures forall x :: x in r <==> x in a && x !in seen
    ensures NoDuplicates(r)
    ensures forall i, j :: 0 <= i < j < |r| ==> r[i] != r[j]
    ensures IsSubsequence(r, a)
    decreases |a|
  {
    if a == [] then []
    else if a[0] in seen then
      var rest := ExceptFrom(a[1..], seen);
      assert rest == [] || rest[0] != a[0];
      rest
    else
      var rest := ExceptFrom(a[1..], seen + {a[0]});
      assert a[0] !in rest;
      [a[0]] + rest
  }

  /** LINQ `a.Except(b)`: the distinct elements of `a` that do not occur in `b`, in order of first occurrence. */
  function Except<T(==,!new)>(a: seq<T>, b: seq<T>): (r: seq<T>)
    ensures Elements(r) == Elements(a) - Elements(b)
    ensures NoDuplicates(r)
    ensures IsSubsequence(r, a)
  {
    ExceptFrom(a, Elements(b))
  }

  /** `ExceptFrom` keeps the elements in the order of their first occurrence. */
  lemma {:induction false} ExceptFromFirstOrder<T(!new)>(a: seq<T>, seen: set<T>)
    ensures FirstOrder(ExceptFrom(a, seen), a)
    decreases |a|
  {
    if a != [] {
      var t := a[1..];
      var r := ExceptFrom(a, seen);
      if a[0] in seen {
        ExceptFromFirstOrder(t, seen);
        forall i, j, k | 0 <= i < j < |r| && 0 <= k < |a| && a[k] == r[j] ensures r[i] in a[..k] {
          assert k > 0;
          assert t[k - 1] == r[j] && t[..k - 1] == a[1..k];
        }
      } else {
        var rest := ExceptFrom(t, seen + {a[0]});
        ExceptFromFirstOrder(t, seen + {a[0]});
        assert r == [a[0]] + rest;
        forall i, j, k | 0 <= i < j < |r| && 0 <= k < |a| && a[k] == r[j] ensures r[i] in a[..k] {
          assert r[j] == rest[j - 1];
          assert k > 0;
          if i > 0 {
            assert t[k - 1] == rest[j - 1] && t[..k - 1] == a[1..k];
            assert rest[i - 1] in t[..k - 1];
          } else {
            assert a[..k][0] == a[0];
          }
        }
      }
    }
  }

  /** `a.Except(b)` keeps the elements of `a` in the order of their first occurrence. */
  lemma ExceptFirstOrder<T(!new)>(a: seq<T>, b: seq<T>)
    ensures FirstOrder(Except(a, b), a)
  {
    ExceptFromFirstOrder(a, Elements(b));
  }

  /** A sequence without duplicates has as many distinct values as elements. */
  lemma {:induction false} NoDuplicatesCardinality<T(!new)>(s: seq<T>)
    requires NoDuplicates(s)
    ensures |Elements(s)| == |s|
  {
    if s != [] {
      var t := s[1..];
      assert s == [s[0]] + t;
      assert multiset(s) == multiset{s[0]} + multiset(t);
      assert s[0] !in t by {
        assert multiset(s)[s[0]] == 1 + multiset(t)[s[0]];
      }
      assert NoDuplicates(t) by {
        forall x ensures multiset(t)[x] <= 1 {
          assert multiset(t)[x] <= multiset(s)[x];
        }
      }
      NoDuplicatesCardinality(t);
      assert Elements(s) == {s[0]} + Elements(t);
    }
  }

  /** A sequence has at most as many distinct values as elements. */
  lemma {:induction false} ElementsCardinality<T>(s: seq<T>)
    ensures |Elements(s)| <= |s|
  {
    if s != [] {
      ElementsCardinality(s[1..]);
      assert Elements(s) == {s[0]} + Elements(s[1..]);
    }
  }

  /** A sub-multiset of a duplicate-free sequence is duplicate-free. */
  lemma SubMultisetNoDuplicates<T(!new)>(r: seq<T>, s: seq<T>)
    requires multiset(r) <= multiset(s) && NoDuplicates(s)
    ensures NoDuplicates(r)
  {
    forall x ensures multiset(r)[x] <= 1 {
      assert multiset(r)[x] <= multiset(s)[x];
    }
  }

  /**
   * Removing a duplicate-free set of winners from a duplicate-free pool shrinks it by exactly
   * the number of winners.
   */
  lemma ExceptSize<T(!new)>(a: seq<T>, b: seq<T>)
    requires NoDuplicates(a) && NoDuplicates(b) && Elements(b) <= Elements(a)
    ensures |Except(a, b)| == |a| - |b|
  {
    var r := Except(a, b);
    NoDuplicatesCardinality(a);
    NoDuplicatesCardinality(b);
    NoDuplicatesCardinality(r);
    var A, B := Elements(a), Elements(b);
    assert A == (A - B) + B;
    assert (A - B) !! B;
    assert |A| == |A - B| + |B|;
  }

  /** `s` with the first occurrence of `x` taken out. */
  function RemoveFirst<T(==)>(s: seq<T>, x: T): (r: seq<T>)
    ensures multiset(r) == multiset(s) - multiset{x}
  {
    if s == [] then []
    else if s[0] == x then (assert s == [s[0]] + s[1..]; s[1..])
    else (assert s == [s[0]] + s[1..]; [s[0]] + RemoveFirst(s[1..], x))
  }

  /** The elements of `s` left once each element of `w` has been taken out (multiset difference). */
  function RemoveAll<T(==)>(s: seq<T>, w: seq<T>): (r: seq<T>)
    ensures multiset(r) == multiset(s) - multiset(w)
    decreases |w|
  {
    if w == [] then s
    else
      assert w == [w[0]] + w[1..];
      RemoveAll(RemoveFirst(s, w[0]), w[1..])
  }
}
