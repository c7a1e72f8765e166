/** Stable sorting by an order, first maximum, and the median of a list of prices. */
module Ordering {

  ghost predicate TotalPreorder<T(!new)>(le: (T, T) -> bool) {
    && (forall a, b :: le(a, b) || le(b, a))
    && (forall a, b, c :: le(a, b) && le(b, c) ==> le(a, c))
  }

  ghost predicate Sorted<T>(s: seq<T>, le: (T, T) -> bool) {
    forall i, j :: 0 <= i < j < |s| ==> le(s[i], s[j])
  }

  /** Inserts before the first element that is not smaller, which keeps sorting stable. */
  function Insert<T>(x: T, s: seq<T>, le: (T, T) -> bool): (r: seq<T>)
    ensures multiset(r) == multiset(s) + multiset{x}
  {
    if s == [] || le(x, s[0]) then [x] + s
    else
      assert s == [s[0]] + s[1..];
      [s[0]] + Insert(x, s[1..], le)
  }

  function Sort<T>(s: seq<T>, le: (T, T) -> bool): (r: seq<T>)
    ensures multiset(r) == multiset(s)
    ensures |r| == |s|
  {
    if s == [] then []
    else
      assert s == [s[0]] + s[1..];
      var r := Insert(s[0], Sort(s[1..], le), le);
      assert |multiset(r)| == |r|;
      assert |multiset(s)| == |s|;
      r
  }

  lemma SameElements<T>(s: seq<T>, t: seq<T>)
    requires multiset(s) == multiset(t)
    ensures forall x :: x in s <==> x in t
  {
    forall x ensures x in s <==> x in t {
      assert x in s <==> x in multiset(s);
      assert x in t <==> x in multiset(t);
    }
  }

  lemma {:induction false} InsertSorted<T(!new)>(x: T, s: seq<T>, le: (T, T) -> bool)
    requires TotalPreorder(le) && Sorted(s, le)
    ensures Sorted(Insert(x, s, le), le)
  {
    if s == [] || le(x, s[0]) {
    } else {
      InsertSorted(x, s[1..], le);
      var tail := Insert(x, s[1..], le);
      SameElements(tail, s[1..] + [x]);
      forall y | y in tail ensures le(s[0], y) {
        assert y in s[1..] + [x];
      }
    }
  }

  lemma {:induction false} SortSorts<T(!new)>(s: seq<T>, le: (T, T) -> bool)
    requires TotalPreorder(le)
    ensures Sorted(Sort(s, le), le)
  {
    if s != [] {
      SortSorts(s[1..], le);
      InsertSorted(s[0], Sort(s[1..], le), le);
    }
  }

  /** Sorting a sorted list leaves it alone (this is where stability shows). */
  lemma {:induction false} SortFixes<T(!new)>(s: seq<T>, le: (T, T) -> bool)
    requires Sorted(s, le)
    ensures Sort(s, le) == s
  {
    if s != [] {
      SortFixes(s[1..], le);
      assert s == [s[0]] + s[1..];
    }
  }

  ghost predicate Distinct<T>(s: seq<T>) {
    forall i, j :: 0 <= i < j < |s| ==> s[i] != s[j]
  }

  lemma {:induction false} DistinctCounts<T>(s: seq<T>, x: T)
    requires Distinct(s)
    ensures multiset(s)[x] <= 1
  {
    if s != [] {
      DistinctCounts(s[1..], x);
      assert s == [s[0]] + s[1..];
      if x == s[0] {
        assert x !in s[1..];
      }
    }
  }

  lemma RepeatCounts<T>(t: seq<T>, i: nat, j: nat)
    requires i < j < |t| && t[i] == t[j]
    ensures multiset(t)[t[j]] >= 2
  {
    assert t == t[..j] + [t[j]] + t[j + 1..];
    assert t[..j][i] in multiset(t[..j]);
  }

  /** A rearrangement of a list without repetitions has no repetitions. */
  lemma DistinctPermutes<T>(s: seq<T>, t: seq<T>)
    requires Distinct(s) && multiset(s) == multiset(t)
    ensures Distinct(t)
  {
    forall i, j | 0 <= i < j < |t| ensures t[i] != t[j] {
      DistinctCounts(s, t[j]);
      if t[i] == t[j] {
        RepeatCounts(t, i, j);
      }
    }
  }

  /** The first of the greatest elements, as Python's `max` with a key returns it. */
  function MaxBy<T>(s: seq<T>, le: (T, T) -> bool): (m: T)
    requires s != []
    ensures m in s
  {
    if |s| == 1 then s[0]
    else
      var m := MaxBy(s[..|s| - 1], le);
      if le(s[|s| - 1], m) then m else s[|s| - 1]
  }

  lemma {:induction false} MaxByGreatest<T(!new)>(s: seq<T>, le: (T, T) -> bool)
    requires s != [] && TotalPreorder(le)
    ensures forall x :: x in s ==> le(x, MaxBy(s, le))
  {
    if |s| > 1 {
      MaxByGreatest(s[..|s| - 1], le);
      forall x | x in s ensures le(x, MaxBy(s, le)) {
        assert x in s[..|s| - 1] || x == s[|s| - 1];
      }
    }
  }

  predicate Leq(a: real, b: real) { a <= b }

  ghost predicate Ascending(s: seq<real>) {
    forall i, j :: 0 <= i <= j < |s| ==> s[i] <= s[j]
  }

  lemma SortAscends(s: seq<real>)
    ensures Ascending(Sort(s, Leq))
  {
    SortSorts(s, Leq);
    var t := Sort(s, Leq);
    forall i, j | 0 <= i <= j < |t| ensures t[i] <= t[j] {
      if i < j { assert Leq(t[i], t[j]); }
    }
  }

  lemma AscendingHead(s: seq<real>, x: real)
    requires Ascending(s) && x in s
    ensures s[0] <= x
  {
  }

  lemma AscendingTail(s: seq<real>)
    requires Ascending(s) && s != []
    ensures Ascending(s[1..])
    ensures multiset(s[1..]) == multiset(s) - multiset{s[0]}
    ensures s == [s[0]] + s[1..]
  {
    assert s == [s[0]] + s[1..];
  }

  lemma SameHead(s: seq<real>, t: seq<real>)
    requires Ascending(s) && Ascending(t) && s != [] && multiset(s) == multiset(t)
    ensures t != [] && s[0] == t[0]
  {
    SameElements(s, t);
    assert s[0] in t;
    AscendingHead(t, s[0]);
    assert t[0] in s;
    AscendingHead(s, t[0]);
  }

  /** A multiset of prices has only one ascending arrangement. */
  lemma {:induction false} AscendingUnique(s: seq<real>, t: seq<real>)
    requires Ascending(s) && Ascending(t) && multiset(s) == multiset(t)
    ensures s == t
    decreases |s|
  {
    if s == [] {
    } else {
      SameHead(s, t);
      AscendingTail(s);
      AscendingTail(t);
      AscendingUnique(s[1..], t[1..]);
    }
  }

  function MidOf(s: seq<real>): real
    requires s != []
  {
    var middle := |s| / 2;
    if |s| % 2 == 1 then s[middle] else (s[middle - 1] + s[middle]) / 2.0
  }

  function Median(s: seq<real>): real
    requires s != []
  {
    MidOf(Sort(s, Leq))
  }

  /** The median depends only on the collection of prices, not on their order. */
  lemma MedianPermutes(s: seq<real>, t: seq<real>)
    requires s != [] && t != [] && multiset(s) == multiset(t)
    ensures Median(s) == Median(t)
  {
    SortAscends(s);
    SortAscends(t);
    AscendingUnique(Sort(s, Leq), Sort(t, Leq));
  }

  lemma MedianOfAscending(s: seq<real>)
    requires s != [] && Ascending(s)
    ensures Median(s) == MidOf(s)
    ensures s[0] <= Median(s) <= s[|s| - 1]
  {
    SortFixes(s, Leq);
  }

  lemma MidRises(s: seq<real>, x: real)
    requires s != [] && Ascending(s + [x])
    ensures MidOf(s) <= MidOf(s + [x])
  {
    var t, k := s + [x], |s| / 2;
    assert t[k] == s[k];
    if |s| % 2 == 1 {
      assert |t| / 2 == k + 1 && t[k] <= t[k + 1];
    } else {
      assert |t| / 2 == k && t[k - 1] == s[k - 1] && t[k - 1] <= t[k];
    }
  }

  /** Adding an element at least as large as all others never lowers the median. */
  lemma MedianRises(s: seq<real>, x: real)
    requires s != [] && Ascending(s + [x])
    ensures Median(s) <= Median(s + [x]) <= x
  {
    assert Ascending(s) by {
      assert forall i :: 0 <= i < |s| ==> s[i] == (s + [x])[i];
    }
    MedianOfAscending(s);
    MedianOfAscending(s + [x]);
    MidRises(s, x);
  }

  /** The median of any non-empty list lies between any bounds of its elements. */
  lemma MedianBetween(s: seq<real>, lo: real, hi: real)
    requires s != [] && forall x :: x in s ==> lo <= x <= hi
    ensures lo <= Median(s) <= hi
  {
    var t := Sort(s, Leq);
    SameElements(s, t);
    assert forall i :: 0 <= i < |t| ==> t[i] in t;
  }

  /** Twice the median is the sum of the two middle prices of any ascending arrangement, which are
      the same price when their number is odd. */
  lemma MedianIsMiddle(s: seq<real>, t: seq<real>)
    requires s != [] && Ascending(t) && multiset(s) == multiset(t)
    ensures |t| == |s| && 2.0 * Median(s) == t[(|t| - 1) / 2] + t[|t| / 2]
  {
    assert |s| == |multiset(s)| == |multiset(t)| == |t|;
    MedianPermutes(s, t);
    MedianOfAscending(t);
  }
}
