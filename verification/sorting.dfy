/** Lexicographic order on strings and the sort the completer applies to its
    results (Go's `sort.Strings`). Go compares UTF-8 bytes; comparing code
    points gives the same order, so characters are compared directly. */
module Sorting {

  /** `a <= b` in lexicographic order: a proper prefix comes first. */
  predicate LexLe(a: string, b: string)
    decreases |a|
  {
    |a| == 0 || (|b| > 0 && (a[0] < b[0] || (a[0] == b[0] && LexLe(a[1..], b[1..]))))
  }

  lemma LexLeTotal(a: string, b: string)
    ensures LexLe(a, b) || LexLe(b, a)
    decreases |a|
  {
    if |a| > 0 && |b| > 0 && a[0] == b[0] {
      LexLeTotal(a[1..], b[1..]);
    }
  }

  lemma LexLeReflexive(a: string)
    ensures LexLe(a, a)
    decreases |a|
  {
    if |a| > 0 {
      LexLeReflexive(a[1..]);
    }
  }

  lemma LexLeAntisymmetric(a: string, b: string)
    requires LexLe(a, b) && LexLe(b, a)
    ensures a == b
    decreases |a|
  {
    if |a| > 0 {
      LexLeAntisymmetric(a[1..], b[1..]);
      assert a == [a[0]] + a[1..] && b == [b[0]] + b[1..];
    }
  }

  lemma LexLeTransitive(a: string, b: string, c: string)
    requires LexLe(a, b) && LexLe(b, c)
    ensures LexLe(a, c)
    decreases |a|
  {
    if |a| > 0 && a[0] == b[0] && b[0] == c[0] {
      LexLeTransitive(a[1..], b[1..], c[1..]);
    }
  }

  /** Every earlier element is at most every later one. */
  predicate Sorted(s: seq<string>)
  {
    forall i, j :: 0 <= i < j < |s| ==> LexLe(s[i], s[j])
  }

  /** `x` is at most every element of `s`. */
  predicate LowerBound(x: string, s: seq<string>)
  {
    forall k :: 0 <= k < |s| ==> LexLe(x, s[k])
  }

  /** Anything at most the head of a sorted list bounds all of it. */
  lemma BelowHeadBoundsAll(x: string, s: seq<string>)
    requires Sorted(s) && |s| > 0 && LexLe(x, s[0])
    ensures LowerBound(x, s)
  {
    forall k | 0 < k < |s|
      ensures LexLe(x, s[k])
    {
      LexLeTransitive(x, s[0], s[k]);
    }
  }

  /** A lower bound of a list bounds every permutation of it. */
  lemma LowerBoundPermuted(x: string, s: seq<string>, t: seq<string>)
    requires LowerBound(x, s) && multiset(t) == multiset(s)
    ensures LowerBound(x, t)
  {
    forall k | 0 <= k < |t|
      ensures LexLe(x, t[k])
    {
      assert t[k] in multiset(s);
      var j :| 0 <= j < |s| && s[j] == t[k];
    }
  }

  /** Prepending a lower bound keeps a list sorted. */
  lemma SortedCons(x: string, s: seq<string>)
    requires Sorted(s) && LowerBound(x, s)
    ensures Sorted([x] + s)
  {
  }

  /** Places `x` into the sorted list `s`. */
  function Insert(x: string, s: seq<string>): (r: seq<string>)
    requires Sorted(s)
    ensures Sorted(r)
    ensures multiset(r) == multiset(s) + multiset{x}
    decreases |s|
  {
    if |s| == 0 then [x]
    else if LexLe(x, s[0]) then
      BelowHeadBoundsAll(x, s);
      SortedCons(x, s);
      assert s == [s[0]] + s[1..];
      [x] + s
    else
      var tail := Insert(x, s[1..]);
      LexLeTotal(x, s[0]);
      assert LowerBound(s[0], [x] + s[1..]);
      LowerBoundPermuted(s[0], [x] + s[1..], tail);
      SortedCons(s[0], tail);
      assert s == [s[0]] + s[1..];
      [s[0]] + tail
  }

  /** Sorts a list of strings; the result is a sorted permutation. */
  function Sort(s: seq<string>): (r: seq<string>)
    ensures Sorted(r)
    ensures multiset(r) == multiset(s)
    decreases |s|
  {
    if |s| == 0 then []
    else
      assert s == [s[0]] + s[1..];
      Insert(s[0], Sort(s[1..]))
  }

  /** The head of a sorted list is below every element of it. */
  lemma SortedHeadIsLeast(s: seq<string>, x: string)
    requires Sorted(s)
    requires x in multiset(s)
    ensures |s| > 0 && LexLe(s[0], x)
  {
    var j :| 0 <= j < |s| && s[j] == x;
    if j == 0 {
      LexLeReflexive(x);
    }
  }

  /** Dropping the head of a list removes one copy of it from the multiset. */
  lemma MultisetTail(a: seq<string>)
    requires |a| > 0
    ensures multiset(a[1..]) == multiset(a) - multiset{a[0]}
  {
    assert a == [a[0]] + a[1..];
  }

  /** A sorted permutation is unique, so any correct sort (Go's included)
      yields exactly `Sort`'s result. */
  lemma {:induction false} SortedUnique(a: seq<string>, b: seq<string>)
    requires Sorted(a) && Sorted(b)
    requires multiset(a) == multiset(b)
    ensures a == b
    decreases |a|
  {
    if |a| == 0 {
      assert |multiset(b)| == 0;
    } else {
      assert a[0] in multiset(a);
      SortedHeadIsLeast(b, a[0]);
      assert b[0] in multiset(b);
      SortedHeadIsLeast(a, b[0]);
      LexLeAntisymmetric(a[0], b[0]);
      MultisetTail(a);
      MultisetTail(b);
      assert Sorted(a[1..]) && Sorted(b[1..]);
      SortedUnique(a[1..], b[1..]);
      assert a == [a[0]] + a[1..];
      assert b == [b[0]] + b[1..];
    }
  }
}
