/**
 * The .NET sequence and string operations the startup code relies on:
 * Enumerable.Where, Enumerable.SelectMany, and ordinal String.StartsWith / String.Contains.
 */
module Enumerable {
  /** Enumerable.Where: the elements of `s` that satisfy `p`, in their original order. */
  function Where<T(!new)>(p: T -> bool, s: seq<T>): (r: seq<T>)
    ensures |r| <= |s|
    ensures forall x :: x in r <==> x in s && p(x)
  {
    if s == [] then [] else (if p(s[0]) then [s[0]] else []) + Where(p, s[1..])
  }

  /** Where keeps the order of its input: filtering a concatenation filters each part. */
  lemma {:induction false} WhereConcat<T(!new)>(p: T -> bool, a: seq<T>, b: seq<T>)
    ensures Where(p, a + b) == Where(p, a) + Where(p, b)
  {
    if a == [] {
      assert a + b == b;
    } else {
      assert (a + b)[1..] == a[1..] + b;
      WhereConcat(p, a[1..], b);
    }
  }

  /** Enumerable.SelectMany: the sequences `f(x)` for the elements `x` of `s`, concatenated in order. */
  function SelectMany<A(!new), B(!new)>(f: A -> seq<B>, s: seq<A>): (r: seq<B>)
    ensures forall y :: y in r <==> exists x :: x in s && y in f(x)
    ensures |s| == 1 ==> r == f(s[0])
  {
    if s == [] then [] else f(s[0]) + SelectMany(f, s[1..])
  }

  /** SelectMany keeps the order of its input. */
  lemma {:induction false} SelectManyConcat<A(!new), B(!new)>(f: A -> seq<B>, a: seq<A>, b: seq<A>)
    ensures SelectMany(f, a + b) == SelectMany(f, a) + SelectMany(f, b)
  {
    if a == [] {
      assert a + b == b;
    } else {
      assert (a + b)[1..] == a[1..] + b;
      SelectManyConcat(f, a[1..], b);
    }
  }

  /** Ordinal String.StartsWith. */
  predicate StartsWith(s: string, prefix: string) {
    |prefix| <= |s| && s[..|prefix|] == prefix
  }

  /** Ordinal String.Contains: `sub` begins at some position of `s`. */
  predicate Contains(s: string, sub: string)
    decreases |s|
  {
    StartsWith(s, sub) || (s != [] && Contains(s[1..], sub))
  }

  /** `sub` occurs in `s` starting at position `i`. */
  predicate OccursAt(s: string, sub: string, i: int) {
    0 <= i <= |s| - |sub| && s[i..i + |sub|] == sub
  }

  /** Contains means that `sub` occurs as a contiguous slice of `s`. */
  lemma {:induction false} ContainsIffOccurs(s: string, sub: string)
    ensures Contains(s, sub) <==> exists i :: OccursAt(s, sub, i)
    decreases |s|
  {
    if StartsWith(s, sub) {
      assert OccursAt(s, sub, 0);
    } else if s == [] {
    } else {
      ContainsIffOccurs(s[1..], sub);
      if Contains(s[1..], sub) {
        var i :| OccursAt(s[1..], sub, i);
        assert s[1..][i..i + |sub|] == s[i + 1..i + 1 + |sub|];
        assert OccursAt(s, sub, i + 1);
      }
      if exists i :: OccursAt(s, sub, i) {
        var i :| OccursAt(s, sub, i);
        assert s[1..][i - 1..i - 1 + |sub|] == s[i..i + |sub|];
        assert OccursAt(s[1..], sub, i - 1);
      }
    }
  }
}
