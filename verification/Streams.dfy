/** First matches, filters and tallies over streams, and how they behave as a stream grows. */
module Streams {

  /** The least index at or after `from` whose element matches, or `|s|` when there is none. */
  function First<T>(s: seq<T>, p: (T, int) -> bool, from: nat): (r: nat)
    requires from <= |s|
    ensures from <= r <= |s|
    ensures r < |s| ==> p(s[r], r)
    ensures forall j :: from <= j < r ==> !p(s[j], j)
    decreases |s| - from
  {
    if from == |s| || p(s[from], from) then from else First(s, p, from + 1)
  }

  /** A first match already found never moves; a missing one can only appear in the new part. */
  lemma FirstGrows<T>(s: seq<T>, t: seq<T>, p: (T, int) -> bool, from: nat)
    requires s <= t && from <= |s|
    ensures First(s, p, from) < |s| ==> First(t, p, from) == First(s, p, from)
    ensures First(s, p, from) == |s| ==> First(t, p, from) >= |s|
  {
  }

  /** The first `n` elements, or all of them. */
  function Take<T>(s: seq<T>, n: nat): seq<T> { if n < |s| then s[..n] else s }

  function Filter<T>(s: seq<T>, p: T -> bool): (r: seq<T>)
    ensures forall x :: x in r ==> x in s && p(x)
  {
    if s == [] then [] else (if p(s[0]) then [s[0]] else []) + Filter(s[1..], p)
  }

  lemma {:induction false} FilterAppend<T>(a: seq<T>, b: seq<T>, p: T -> bool)
    ensures Filter(a + b, p) == Filter(a, p) + Filter(b, p)
  {
    if a == [] {
      assert a + b == b;
    } else {
      assert (a + b)[1..] == a[1..] + b;
      FilterAppend(a[1..], b, p);
    }
  }

  lemma {:induction false} FilterComplete<T>(s: seq<T>, p: T -> bool, x: T)
    requires x in s && p(x)
    ensures x in Filter(s, p)
  {
    if s[0] != x {
      FilterComplete(s[1..], p, x);
    }
  }

  lemma FilterEmpty<T>(s: seq<T>, p: T -> bool)
    requires Filter(s, p) == []
    ensures forall x :: x in s ==> !p(x)
  {
  }

  /** Filtering a prefix gives a prefix of the filtered whole. */
  lemma FilterGrows<T>(s: seq<T>, t: seq<T>, p: T -> bool)
    requires s <= t
    ensures Filter(s, p) <= Filter(t, p)
  {
    assert t == s + t[|s|..];
    FilterAppend(s, t[|s|..], p);
  }

  /** Once a predicate turns true for good at index `k`, filtering is dropping the first `k`. */
  lemma {:induction false} FilterSuffix<T>(s: seq<T>, p: T -> bool, k: nat)
    requires k <= |s|
    requires forall i :: 0 <= i < k ==> !p(s[i])
    requires forall i :: k <= i < |s| ==> p(s[i])
    ensures Filter(s, p) == s[k..]
  {
    if s == [] {
    } else if k == 0 {
      FilterSuffix(s[1..], p, 0);
    } else {
      FilterSuffix(s[1..], p, k - 1);
      assert s[1..][k - 1..] == s[k..];
    }
  }

  function Tally<T>(s: seq<T>, p: T -> bool): (n: nat)
    ensures n <= |s|
  {
    if s == [] then 0 else (if p(s[0]) then 1 else 0) + Tally(s[1..], p)
  }

  /** A predicate that implies another is counted no more often. */
  lemma {:induction false} TallyImplies<T>(s: seq<T>, p: T -> bool, q: T -> bool)
    requires forall x :: x in s && p(x) ==> q(x)
    ensures Tally(s, p) <= Tally(s, q)
  {
    if s != [] {
      TallyImplies(s[1..], p, q);
    }
  }

  lemma {:induction false} TallyAppend<T>(a: seq<T>, b: seq<T>, p: T -> bool)
    ensures Tally(a + b, p) == Tally(a, p) + Tally(b, p)
  {
    if a == [] {
      assert a + b == b;
    } else {
      assert (a + b)[1..] == a[1..] + b;
      TallyAppend(a[1..], b, p);
    }
  }
}
