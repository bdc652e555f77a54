/** Generic facts about sequences: order-preserving filtering, element-wise
    mapping, subsequences and duplicate-freedom. */
module Sequences {

  /** No element occurs twice. */
  ghost predicate Distinct<T>(s: seq<T>) {
    forall i, j :: 0 <= i < j < |s| ==> s[i] != s[j]
  }

  /** `xs` can be obtained from `ys` by deleting elements, so the elements of
      `xs` occur in `ys` in the same relative order. */
  ghost predicate IsSubsequence<T>(xs: seq<T>, ys: seq<T>)
    decreases |ys|
  {
    || |xs| == 0
    || (&& |ys| > 0
        && ((xs[0] == ys[0] && IsSubsequence(xs[1..], ys[1..])) || IsSubsequence(xs, ys[1..])))
  }

  /** The elements of `s` that satisfy `p`, in their original order. */
  function Filter<T(!new)>(p: T -> bool, s: seq<T>): (r: seq<T>)
    ensures |r| <= |s|
    ensures forall x :: multiset(r)[x] == if p(x) then multiset(s)[x] else 0
    ensures forall x :: x in r <==> x in s && p(x)
  {
    if |s| == 0 then []
    else
      assert s == [s[0]] + s[1..];
      if p(s[0]) then [s[0]] + Filter(p, s[1..]) else Filter(p, s[1..])
  }

  /** `f` applied to every element of `s`. */
  function Map<T, U>(f: T -> U, s: seq<T>): (r: seq<U>)
    ensures |r| == |s|
    ensures forall i :: 0 <= i < |s| ==> r[i] == f(s[i])
  {
    seq(|s|, i requires 0 <= i < |s| => f(s[i]))
  }

  /** Filtering keeps the survivors in their original order. */
  lemma {:induction false} FilterIsSubsequence<T(!new)>(p: T -> bool, s: seq<T>)
    ensures IsSubsequence(Filter(p, s), s)
    decreases |s|
  {
    if |s| > 0 {
      FilterIsSubsequence(p, s[1..]);
      var r := Filter(p, s[1..]);
      if p(s[0]) {
        assert ([s[0]] + r)[1..] == r;
      }
    }
  }

  /** Every element of a subsequence is an element of the whole. */
  lemma {:induction false} SubsequenceMembers<T>(xs: seq<T>, ys: seq<T>)
    requires IsSubsequence(xs, ys)
    ensures forall x :: x in xs ==> x in ys
    decreases |ys|
  {
    if |xs| > 0 {
      if xs[0] == ys[0] && IsSubsequence(xs[1..], ys[1..]) {
        SubsequenceMembers(xs[1..], ys[1..]);
        assert xs == [xs[0]] + xs[1..];
        assert ys == [ys[0]] + ys[1..];
      } else {
        SubsequenceMembers(xs, ys[1..]);
        assert ys == [ys[0]] + ys[1..];
      }
    }
  }

  /** A subsequence of a duplicate-free sequence is duplicate-free. */
  lemma {:induction false} SubsequenceDistinct<T>(xs: seq<T>, ys: seq<T>)
    requires IsSubsequence(xs, ys)
    requires Distinct(ys)
    ensures Distinct(xs)
    decreases |ys|
  {
    if |xs| > 0 {
      assert Distinct(ys[1..]) by {
        forall i, j | 0 <= i < j < |ys[1..]| ensures ys[1..][i] != ys[1..][j] {
          assert ys[1..][i] == ys[i + 1] && ys[1..][j] == ys[j + 1];
        }
      }
      if xs[0] == ys[0] && IsSubsequence(xs[1..], ys[1..]) {
        SubsequenceDistinct(xs[1..], ys[1..]);
        SubsequenceMembers(xs[1..], ys[1..]);
        forall i, j | 0 <= i < j < |xs| ensures xs[i] != xs[j] {
          if i == 0 {
            assert xs[j] == xs[1..][j - 1];
            assert xs[j] in ys[1..];
            var k :| 0 <= k < |ys[1..]| && ys[1..][k] == xs[j];
            assert ys[k + 1] == xs[j];
          } else {
            assert xs[i] == xs[1..][i - 1] && xs[j] == xs[1..][j - 1];
          }
        }
      } else {
        SubsequenceDistinct(xs, ys[1..]);
      }
    }
  }

  /** Over a duplicate-free sequence, the filter is the ONLY subsequence with
      its members: order and membership together determine it. */
  lemma {:induction false} FilterUnique<T(!new)>(p: T -> bool, s: seq<T>, t: seq<T>)
    requires Distinct(s)
    requires IsSubsequence(t, s)
    requires forall x :: x in t <==> x in s && p(x)
    ensures t == Filter(p, s)
    decreases |s|
  {
    if |s| == 0 {
      assert |t| == 0;
    } else {
      var a, rest := s[0], s[1..];
      assert s == [a] + rest;
      assert Distinct(rest) by {
        forall i, j | 0 <= i < j < |rest| ensures rest[i] != rest[j] {
          assert rest[i] == s[i + 1] && rest[j] == s[j + 1];
        }
      }
      assert a !in rest by {
        forall k | 0 <= k < |rest| ensures rest[k] != a {
          assert rest[k] == s[k + 1];
        }
      }
      if |t| == 0 {
        assert multiset(Filter(p, s)) == multiset{};
      } else if t[0] == a && IsSubsequence(t[1..], rest) {
        SubsequenceMembers(t[1..], rest);
        assert t == [a] + t[1..];
        forall x ensures x in t[1..] <==> x in rest && p(x) {
          if x == a {
            assert x !in t[1..];
          } else {
            assert x in t <==> x in t[1..];
          }
        }
        FilterUnique(p, rest, t[1..]);
      } else {
        SubsequenceMembers(t, rest);
        assert a !in t;
        FilterUnique(p, rest, t);
      }
    }
  }

  /** Mapping a non-empty sequence maps its head and its tail. */
  lemma MapCons<T, U>(f: T -> U, s: seq<T>)
    requires |s| > 0
    ensures Map(f, s) == [f(s[0])] + Map(f, s[1..])
  {
  }

  /** Filtering a non-empty sequence decides its head, then filters its tail. */
  lemma FilterCons<T(!new)>(p: T -> bool, s: seq<T>)
    requires |s| > 0
    ensures Filter(p, s) == (if p(s[0]) then [s[0]] else []) + Filter(p, s[1..])
  {
  }

  /** Filtering then mapping equals mapping then filtering, when the filter
      on the input elements is the filter on their images. */
  lemma {:induction false} FilterMapCommute<T(!new), U(!new)>(f: T -> U, q: T -> bool, p: U -> bool, s: seq<T>)
    requires forall x :: q(x) == p(f(x))
    ensures Map(f, Filter(q, s)) == Filter(p, Map(f, s))
    decreases |s|
  {
    if |s| > 0 {
      var tail := Filter(q, s[1..]);
      FilterMapCommute(f, q, p, s[1..]);
      MapCons(f, s);
      FilterCons(p, Map(f, s));
      FilterCons(q, s);
      if q(s[0]) {
        MapCons(f, [s[0]] + tail);
        assert ([s[0]] + tail)[1..] == tail;
      }
    }
  }
}
