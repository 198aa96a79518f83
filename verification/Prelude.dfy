/** Small definitions shared by the other modules. */
module Prelude {

  /** A C pointer, or a result, that may be absent. */
  datatype Option<+T> = None | Some(value: T)

  /** Two to the power `n`. */
  function Pow2(n: nat): (p: nat)
    ensures p >= 1
  {
    if n == 0 then 1 else 2 * Pow2(n - 1)
  }

  lemma {:induction false} Pow2Sum(a: nat, b: nat)
    ensures Pow2(a + b) == Pow2(a) * Pow2(b)
  {
    if a == 0 {
    } else {
      Pow2Sum(a - 1, b);
      assert Pow2(a + b) == 2 * Pow2(a - 1 + b);
    }
  }

  lemma {:induction false} Pow2Above(n: nat)
    ensures n + 1 <= Pow2(n)
  {
    if n == 0 {
    } else {
      Pow2Above(n - 1);
    }
  }

  lemma {:induction false} Pow2Monotone(a: nat, b: nat)
    requires a <= b
    ensures Pow2(a) <= Pow2(b)
    decreases b - a
  {
    if a == b {
    } else {
      Pow2Monotone(a, b - 1);
    }
  }

  /** `s` without its element at `i`, if it has one. */
  function Without<T>(s: seq<T>, i: nat): seq<T> {
    if i < |s| then s[..i] + s[i + 1..] else s
  }

  /** The elements of `s` as a set. */
  function Elements<T>(s: seq<T>): set<T> {
    set x | x in s
  }

  ghost predicate Distinct<T(!new)>(s: seq<T>) {
    forall i, j :: 0 <= i < j < |s| ==> s[i] != s[j]
  }

  lemma {:induction false} DistinctSize<T(!new)>(s: seq<T>)
    requires Distinct(s)
    ensures |Elements(s)| == |s|
  {
    if s == [] {
    } else {
      DistinctSize(s[1..]);
      assert Elements(s) == {s[0]} + Elements(s[1..]);
      assert s[0] !in s[1..];
    }
  }

  lemma SubsetSize<T(!new)>(small: seq<T>, large: seq<T>)
    requires Distinct(small) && Distinct(large) && forall x :: x in small ==> x in large
    ensures |small| <= |large|
  {
    DistinctSize(small);
    DistinctSize(large);
    var rest := Elements(large) - Elements(small);
    assert Elements(large) == Elements(small) + rest;
  }

  /** A distinct list inside one no longer than it covers it: the pigeonhole argument. */
  lemma SubsetCovers<T(!new)>(small: seq<T>, large: seq<T>)
    requires Distinct(small) && Distinct(large)
    requires forall x :: x in small ==> x in large
    requires |large| <= |small|
    ensures forall x :: x in large ==> x in small
  {
    DistinctSize(small);
    DistinctSize(large);
    var rest := Elements(large) - Elements(small);
    assert Elements(large) == Elements(small) + rest;
    assert |Elements(large)| == |Elements(small)| + |rest|;
    forall x | x in large
      ensures x in small
    {
      assert x in Elements(large);
      assert x !in rest;
    }
  }
}
