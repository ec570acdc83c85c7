/** Sequence helpers standing in for the LINQ operators the services use
    (`Distinct`, `Where`, enumeration of a Redis set reply). */
module Seqs {

  /** No element occurs twice. */
  predicate NoDuplicates<T(==)>(s: seq<T>) {
    forall i, j :: 0 <= i < j < |s| ==> s[i] != s[j]
  }

  /** `r` lists every element of the set `s` exactly once, in some order. */
  predicate IsEnumeration<T(==)>(r: seq<T>, s: set<T>) {
    NoDuplicates(r) && (forall x | x in r :: x in s) && (forall x | x in s :: x in r)
  }

  /** `Enumerable.Distinct`: the first occurrence of every element, in order. */
  function Distinct<T(==)>(s: seq<T>): (r: seq<T>)
    ensures NoDuplicates(r)
    ensures forall x | x in r :: x in s
    ensures forall x | x in s :: x in r
    ensures |r| <= |s|
  {
    if s == [] then []
    else
      var d := Distinct(s[..|s| - 1]);
      if s[|s| - 1] in d then d else d + [s[|s| - 1]]
  }

  /** `x` repeated `n` times, as a loop of `n` `List.Add(x)` calls builds it. */
  function Repeat<T>(x: T, n: nat): (r: seq<T>)
    ensures |r| == n && forall i :: 0 <= i < n ==> r[i] == x
  {
    if n == 0 then [] else Repeat(x, n - 1) + [x]
  }

  /** Removing duplicates from a run of one repeated element leaves it once. */
  lemma {:induction false} DistinctOfRepeat<T>(x: T, n: nat)
    requires n >= 1
    ensures Distinct(Repeat(x, n)) == [x]
  {
    var s := Repeat(x, n);
    assert s[..n - 1] == Repeat(x, n - 1);
    if n > 1 {
      DistinctOfRepeat(x, n - 1);
    }
  }

  /** An enumeration of a set has exactly as many elements as the set. */
  lemma {:induction false} EnumerationSize<T>(r: seq<T>, s: set<T>)
    requires IsEnumeration(r, s)
    ensures |r| == |s|
  {
    if r != [] {
      var last := r[|r| - 1];
      var rest := r[..|r| - 1];
      assert IsEnumeration(rest, s - {last}) by {
        forall x ensures x in rest <==> x in s - {last} {
          if x in rest {
            var k :| 0 <= k < |rest| && rest[k] == x;
            assert r[k] == x && k < |r| - 1;
          }
          if x in s - {last} {
            assert x in r;
            var k :| 0 <= k < |r| && r[k] == x;
            assert k != |r| - 1;
            assert rest[k] == x;
          }
        }
      }
      EnumerationSize(rest, s - {last});
    } else {
      assert forall x :: x !in s;
      assert s == {};
    }
  }

  /** Lists the members of a set in an unspecified order (the order of a
      Redis multi-bulk reply). */
  method Enumerate<T(==)>(s: set<T>) returns (r: seq<T>)
    ensures IsEnumeration(r, s)
  {
    r := [];
    var rest := s;
    while rest != {}
      invariant NoDuplicates(r)
      invariant rest <= s
      invariant forall x | x in r :: x in s - rest
      invariant forall x | x in s - rest :: x in r
      decreases rest
    {
      var x :| x in rest;
      assert x !in r;
      r := r + [x];
      rest := rest - {x};
    }
  }

  /** The elements of `s` in reverse order. */
  function Reverse<T>(s: seq<T>): (r: seq<T>)
    ensures |r| == |s| && forall i :: 0 <= i < |s| ==> r[i] == s[|s| - 1 - i]
  {
    if s == [] then [] else [s[|s| - 1]] + Reverse(s[..|s| - 1])
  }
}
