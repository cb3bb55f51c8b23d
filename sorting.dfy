/**
 * Sorting with a JavaScript comparator: `xs.sort(cmp)` where a negative
 * `cmp(a, b)` puts a first, a positive one puts b first and zero keeps the
 * original order (the sort is stable). The sort below is an insertion sort
 * that inserts each element in front of the elements it ties with, so it is
 * stable by construction; it is proved to return a permutation of its input
 * in comparator order.
 */
module Sorting {

  /** cmp orders every pair and its "not after" relation is transitive. */
  ghost predicate IsComparator<T(!new)>(cmp: (T, T) -> int) {
    && (forall a, b :: cmp(a, b) <= 0 || cmp(b, a) <= 0)
    && (forall a, b, c :: cmp(a, b) <= 0 && cmp(b, c) <= 0 ==> cmp(a, c) <= 0)
  }

  /** No element of s belongs strictly after a later one. */
  ghost predicate SortedBy<T>(s: seq<T>, cmp: (T, T) -> int) {
    forall i, j :: 0 <= i < j < |s| ==> cmp(s[i], s[j]) <= 0
  }

  /** Inserts x in front of the first element it does not belong after. */
  function Insert<T>(x: T, s: seq<T>, cmp: (T, T) -> int): (r: seq<T>)
    ensures |r| == |s| + 1
    ensures multiset(r) == multiset(s) + multiset{x}
  {
    if |s| == 0 then [x]
    else if cmp(x, s[0]) <= 0 then [x] + s
    else
      assert s == [s[0]] + s[1..];
      [s[0]] + Insert(x, s[1..], cmp)
  }

  /** `[...s].sort(cmp)`. */
  function Sort<T>(s: seq<T>, cmp: (T, T) -> int): (r: seq<T>)
    ensures |r| == |s|
    ensures multiset(r) == multiset(s)
  {
    if |s| == 0 then []
    else
      assert s == [s[0]] + s[1..];
      Insert(s[0], Sort(s[1..], cmp), cmp)
  }

  /** Inserting x at the front keeps s sorted when x is not after its head. */
  lemma InsertFrontSorted<T(!new)>(x: T, s: seq<T>, cmp: (T, T) -> int)
    requires IsComparator(cmp) && SortedBy(s, cmp)
    requires |s| > 0 && cmp(x, s[0]) <= 0
    ensures SortedBy([x] + s, cmp)
  {
    var r := [x] + s;
    forall i, j | 0 <= i < j < |r| ensures cmp(r[i], r[j]) <= 0 {
      if i > 0 {
        assert r[i] == s[i - 1] && r[j] == s[j - 1];
      } else if j > 1 {
        assert r[j] == s[j - 1] && cmp(s[0], s[j - 1]) <= 0;
      }
    }
  }

  /** Every element of the inserted list is x or an element of s. */
  lemma InsertElements<T>(x: T, s: seq<T>, cmp: (T, T) -> int, k: nat)
    requires k < |Insert(x, s, cmp)|
    ensures Insert(x, s, cmp)[k] == x || Insert(x, s, cmp)[k] in s
  {
    var r := Insert(x, s, cmp);
    assert r[k] in multiset(r);
  }

  /** A head that is not after any element of a sorted list keeps it sorted. */
  lemma ConsSorted<T>(h: T, rest: seq<T>, cmp: (T, T) -> int)
    requires SortedBy(rest, cmp)
    requires forall k :: 0 <= k < |rest| ==> cmp(h, rest[k]) <= 0
    ensures SortedBy([h] + rest, cmp)
  {
    var r := [h] + rest;
    forall i, j | 0 <= i < j < |r| ensures cmp(r[i], r[j]) <= 0 {
      assert r[j] == rest[j - 1];
      if i > 0 {
        assert r[i] == rest[i - 1];
      }
    }
  }

  lemma {:induction false} InsertSorted<T(!new)>(x: T, s: seq<T>, cmp: (T, T) -> int)
    requires IsComparator(cmp) && SortedBy(s, cmp)
    ensures SortedBy(Insert(x, s, cmp), cmp)
  {
    if |s| > 0 {
      if cmp(x, s[0]) <= 0 {
        InsertFrontSorted(x, s, cmp);
      } else {
        var rest := Insert(x, s[1..], cmp);
        InsertSorted(x, s[1..], cmp);
        forall k | 0 <= k < |rest| ensures cmp(s[0], rest[k]) <= 0 {
          InsertElements(x, s[1..], cmp, k);
          if rest[k] != x {
            var m :| 0 <= m < |s[1..]| && s[1..][m] == rest[k];
            assert s[m + 1] == rest[k];
          }
        }
        ConsSorted(s[0], rest, cmp);
      }
    }
  }

  /** The sort puts its result in comparator order. */
  lemma {:induction false} SortSorted<T(!new)>(s: seq<T>, cmp: (T, T) -> int)
    requires IsComparator(cmp)
    ensures SortedBy(Sort(s, cmp), cmp)
  {
    if |s| > 0 {
      SortSorted(s[1..], cmp);
      InsertSorted(s[0], Sort(s[1..], cmp), cmp);
    }
  }

  /** An element of a sorted list is not after any element kept from a later position. */
  lemma SortedPrefixFirst<T(!new)>(s: seq<T>, cmp: (T, T) -> int, n: nat, x: T, y: T)
    requires SortedBy(s, cmp) && n <= |s|
    requires x in s[..n] && y in s[n..]
    ensures cmp(x, y) <= 0
  {
    var i :| 0 <= i < n && s[..n][i] == x;
    var j :| 0 <= j < |s| - n && s[n..][j] == y;
    assert s[i] == x && s[n + j] == y;
  }

  /** Three elements, each of which belongs after every later one, come out reversed. */
  lemma SortReversesThree<T>(a: T, b: T, c: T, cmp: (T, T) -> int)
    requires cmp(b, c) > 0 && cmp(a, c) > 0 && cmp(a, b) > 0
    ensures Sort([a, b, c], cmp) == [c, b, a]
  {
    assert [c][1..] == [] && [b][1..] == [];
    assert Sort([c], cmp) == [c];
    assert [b, c][1..] == [c];
    assert Sort([b, c], cmp) == [c, b];
    assert [a, b, c][1..] == [b, c] && [c, b][1..] == [b];
    assert Insert(a, [b], cmp) == [b, a];
    assert Insert(a, [c, b], cmp) == [c] + Insert(a, [b], cmp);
  }

  /** Sorting neither adds nor drops an element. */
  lemma SortSameElements<T>(s: seq<T>, cmp: (T, T) -> int)
    ensures forall x :: x in Sort(s, cmp) <==> x in s
  {
    var r := Sort(s, cmp);
    forall x ensures x in r <==> x in s {
      assert x in r <==> x in multiset(r);
      assert x in s <==> x in multiset(s);
    }
  }
}
