/**
 * Ascending order over pool values and the sort the query path relies on.
 *
 * The service sorts a pool with the host language's built-in `sorted`. The
 * model gives one concrete ascending sort (insertion sort) and proves that an
 * ascending permutation of a sequence is unique, so every correct sort returns
 * exactly `SortAscending(s)`.
 */
module Sorting {

  /** Non-decreasing order: every earlier value is at most every later one. */
  predicate Ascending(s: seq<real>) {
    forall i, j :: 0 <= i < j < |s| ==> s[i] <= s[j]
  }

  /** Inserts `x` into an ascending sequence, keeping it ascending. */
  function Insert(x: real, s: seq<real>): (r: seq<real>)
    requires Ascending(s)
    ensures |r| == |s| + 1
    ensures r[0] == if s == [] || x <= s[0] then x else s[0]
    ensures Ascending(r)
    ensures multiset(r) == multiset(s) + multiset{x}
  {
    if s == [] then [x]
    else if x <= s[0] then
      assert Ascending([x] + s) by { PrependAscending(x, s); }
      [x] + s
    else
      TailAscending(s);
      var t := Insert(x, s[1..]);
      assert Ascending([s[0]] + t) by {
        assert s[0] <= t[0] by { if |s| > 1 { assert s[0] <= s[1]; } }
        PrependAscending(s[0], t);
      }
      assert multiset(s) == multiset{s[0]} + multiset(s[1..]) by {
        assert s == [s[0]] + s[1..];
      }
      [s[0]] + t
  }

  /** An element at most the head of an ascending sequence can be put in front of it. */
  lemma PrependAscending(x: real, s: seq<real>)
    requires Ascending(s)
    requires s != [] ==> x <= s[0]
    ensures Ascending([x] + s)
  {
    var t := [x] + s;
    forall i, j | 0 <= i < j < |t| ensures t[i] <= t[j] {
      if i > 0 { assert t[i] == s[i - 1] && t[j] == s[j - 1]; }
      else { assert t[j] == s[j - 1]; assert s[0] <= s[j - 1] || j == 1; }
    }
  }

  /** The values of `s` in ascending order. */
  function SortAscending(s: seq<real>): (r: seq<real>)
    ensures |r| == |s|
    ensures Ascending(r)
    ensures multiset(r) == multiset(s)
  {
    if s == [] then []
    else
      assert s == [s[0]] + s[1..];
      Insert(s[0], SortAscending(s[1..]))
  }

  /** The first element of a non-empty ascending sequence is its least element. */
  lemma {:induction false} HeadIsLeast(s: seq<real>, x: real)
    requires Ascending(s) && x in multiset(s)
    ensures s[0] <= x
  {
    assert x in s;
    var k :| 0 <= k < |s| && s[k] == x;
    if k > 0 { assert s[0] <= s[k]; }
  }

  /** Two ascending sequences holding the same values (with multiplicity) are equal. */
  lemma {:induction false} AscendingPermutationUnique(a: seq<real>, b: seq<real>)
    requires Ascending(a) && Ascending(b)
    requires multiset(a) == multiset(b)
    ensures a == b
    decreases |a|
  {
    assert |a| == |multiset(a)| == |multiset(b)| == |b|;
    if a != [] {
      HeadSplit(a);
      HeadSplit(b);
      HeadIsLeast(b, a[0]);
      HeadIsLeast(a, b[0]);
      assert a[0] == b[0];
      assert multiset(a[1..]) == multiset(a) - multiset{a[0]};
      assert multiset(b[1..]) == multiset(b) - multiset{b[0]};
      TailAscending(a);
      TailAscending(b);
      AscendingPermutationUnique(a[1..], b[1..]);
      assert a == [a[0]] + a[1..] && b == [b[0]] + b[1..];
    }
  }

  /** A non-empty sequence's values are its head's plus its tail's. */
  lemma HeadSplit(s: seq<real>)
    requires s != []
    ensures multiset(s) == multiset{s[0]} + multiset(s[1..])
    ensures s[0] in multiset(s)
  {
    assert s == [s[0]] + s[1..];
  }

  /** Dropping the head keeps a sequence ascending. */
  lemma TailAscending(s: seq<real>)
    requires Ascending(s) && s != []
    ensures Ascending(s[1..])
  {
    forall i, j | 0 <= i < j < |s| - 1 ensures s[1..][i] <= s[1..][j] {
      assert s[1..][i] == s[i + 1] && s[1..][j] == s[j + 1];
    }
  }

  /** Sorting a sequence that is already ascending leaves it as it is. */
  lemma SortOfAscending(s: seq<real>)
    requires Ascending(s)
    ensures SortAscending(s) == s
  {
    AscendingPermutationUnique(SortAscending(s), s);
  }

  /** Any ascending permutation of `s` is what `SortAscending` returns. */
  lemma SortIsCanonical(s: seq<real>, t: seq<real>)
    requires Ascending(t) && multiset(t) == multiset(s)
    ensures t == SortAscending(s)
  {
    AscendingPermutationUnique(t, SortAscending(s));
  }
}
