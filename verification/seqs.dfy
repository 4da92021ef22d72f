/**
 Order-preserving selection from a sequence.

 Both filters of the GitHub eventer keep "the subsequence of the input whose
 elements satisfy a test". This module defines that notion once: what a
 subsequence is, what it means for one sequence to be the filter of another,
 a function that computes it, and the fact that the filter is unique, so that
 two sequences that both meet the description are equal.
 */
module Seqs {

  /** `r` can be obtained from `s` by deleting elements, without reordering
      or changing the ones that remain. */
  ghost predicate IsSubsequence<T>(r: seq<T>, s: seq<T>)
    decreases |s|
  {
    || |r| == 0
    || (&& |s| > 0
        && ((r[0] == s[0] && IsSubsequence(r[1..], s[1..])) || IsSubsequence(r, s[1..])))
  }

  /** `r` is exactly the elements of `s` that satisfy `p`: in the same order,
      unchanged, each as often as it occurs in `s`, and nothing else. */
  ghost predicate IsFilterOf<T(!new)>(p: T -> bool, r: seq<T>, s: seq<T>)
  {
    && IsSubsequence(r, s)
    && (forall i :: 0 <= i < |r| ==> p(r[i]))
    && (forall x :: p(x) ==> multiset(r)[x] == multiset(s)[x])
  }

  /** Every sequence is a subsequence of itself. */
  lemma {:induction false} SubsequenceReflexive<T>(s: seq<T>)
    ensures IsSubsequence(s, s)
    decreases |s|
  {
    if |s| > 0 {
      SubsequenceReflexive(s[1..]);
    }
  }

  /** A subsequence never holds an element more often than the whole. */
  lemma {:induction false} SubsequenceMultiset<T>(r: seq<T>, s: seq<T>)
    requires IsSubsequence(r, s)
    ensures multiset(r) <= multiset(s)
    decreases |s|
  {
    if |r| == 0 {
    } else {
      assert s == [s[0]] + s[1..];
      if r[0] == s[0] && IsSubsequence(r[1..], s[1..]) {
        assert r == [r[0]] + r[1..];
        SubsequenceMultiset(r[1..], s[1..]);
      } else {
        SubsequenceMultiset(r, s[1..]);
      }
    }
  }

  /** Taking a subsequence twice gives a subsequence. */
  lemma {:induction false} SubsequenceTransitive<T>(a: seq<T>, b: seq<T>, c: seq<T>)
    requires IsSubsequence(a, b) && IsSubsequence(b, c)
    ensures IsSubsequence(a, c)
    decreases |c|
  {
    if |a| == 0 {
    } else if b[0] == c[0] && IsSubsequence(b[1..], c[1..]) {
      if a[0] == b[0] && IsSubsequence(a[1..], b[1..]) {
        SubsequenceTransitive(a[1..], b[1..], c[1..]);
      } else {
        SubsequenceTransitive(a, b[1..], c[1..]);
      }
    } else {
      SubsequenceTransitive(a, b, c[1..]);
    }
  }

  /** The elements of `s` that satisfy `p`, in their original order. */
  function Filter<T(!new)>(p: T -> bool, s: seq<T>): (r: seq<T>)
    ensures IsSubsequence(r, s)
    ensures forall i :: 0 <= i < |r| ==> p(r[i])
    ensures forall x :: p(x) ==> multiset(r)[x] == multiset(s)[x]
    ensures forall x :: x in r <==> x in s && p(x)
    decreases |s|
  {
    if |s| == 0 then
      []
    else
      var rest := Filter(p, s[1..]);
      assert s == [s[0]] + s[1..];
      if p(s[0]) then
        assert ([s[0]] + rest)[1..] == rest;
        [s[0]] + rest
      else
        rest
  }

  /** The filter is determined by its description: any `r` that is an
      order-preserving selection of exactly the `p`-elements of `s` is
      `Filter(p, s)`. */
  lemma {:induction false} FilterUnique<T(!new)>(p: T -> bool, r: seq<T>, s: seq<T>)
    requires IsFilterOf(p, r, s)
    ensures r == Filter(p, s)
    decreases |s|
  {
    if |s| == 0 {
      assert |r| == 0;
    } else {
      var x, s' := s[0], s[1..];
      assert s == [x] + s';
      if p(x) {
        assert multiset(r)[x] == multiset(s)[x] > 0;
        assert |r| > 0;
        if r[0] == x && IsSubsequence(r[1..], s') {
          var r' := r[1..];
          assert r == [x] + r';
          forall i | 0 <= i < |r'|
            ensures p(r'[i])
          {
            assert r'[i] == r[i + 1];
          }
          assert IsFilterOf(p, r', s');
          FilterUnique(p, r', s');
        } else {
          SubsequenceMultiset(r, s');
          assert false;
        }
      } else {
        if |r| > 0 {
          assert p(r[0]);
          assert IsSubsequence(r, s');
        }
        assert IsFilterOf(p, r, s');
        FilterUnique(p, r, s');
      }
    }
  }

  /** Two sequences that are both the `p`-filter of `s` are equal. */
  lemma FilterOfUnique<T(!new)>(p: T -> bool, r1: seq<T>, r2: seq<T>, s: seq<T>)
    requires IsFilterOf(p, r1, s) && IsFilterOf(p, r2, s)
    ensures r1 == r2
  {
    FilterUnique(p, r1, s);
    FilterUnique(p, r2, s);
  }

  /** Filtering an already filtered sequence changes nothing. */
  lemma FilterIdempotent<T(!new)>(p: T -> bool, s: seq<T>)
    ensures Filter(p, Filter(p, s)) == Filter(p, s)
  {
    var r := Filter(p, s);
    SubsequenceReflexive(r);
    assert IsFilterOf(p, r, r);
    FilterUnique(p, r, r);
  }
}
