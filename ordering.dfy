/** The orders the store sorts query results by (`.sort('name')` and
    `.sort({ updatedAt: 'desc' })`), and a sort that the listing handlers use
    to put their results in that order. */
module Ordering {

  /** Lexicographic order on strings, character by character: the store's
      default (binary) comparison of names. */
  predicate StrLe(a: string, b: string) {
    a == [] || (b != [] && (a[0] < b[0] || (a[0] == b[0] && StrLe(a[1..], b[1..]))))
  }

  lemma {:induction false} StrLeTotal(a: string, b: string)
    ensures StrLe(a, b) || StrLe(b, a)
  {
    if a != [] && b != [] && a[0] == b[0] {
      StrLeTotal(a[1..], b[1..]);
    }
  }

  lemma {:induction false} StrLeTransitive(a: string, b: string, c: string)
    requires StrLe(a, b) && StrLe(b, c)
    ensures StrLe(a, c)
  {
    if a != [] && b != [] && c != [] && a[0] == b[0] == c[0] {
      StrLeTransitive(a[1..], b[1..], c[1..]);
    }
  }

  lemma {:induction false} StrLeAntisymmetric(a: string, b: string)
    requires StrLe(a, b) && StrLe(b, a)
    ensures a == b
  {
    if a != [] && b != [] {
      StrLeAntisymmetric(a[1..], b[1..]);
    }
  }

  /** `le` is a total preorder: every two elements compare, and the order is
      transitive. Ties are allowed, as the store's sort is not stable. */
  ghost predicate TotalPreorder<T(!new)>(le: (T, T) -> bool) {
    (forall x, y :: le(x, y) || le(y, x)) &&
    (forall x, y, z :: le(x, y) && le(y, z) ==> le(x, z))
  }

  predicate SortedBy<T>(s: seq<T>, le: (T, T) -> bool) {
    forall i, j :: 0 <= i < j < |s| ==> le(s[i], s[j])
  }

  /** The head of a sorted sequence precedes everything after it. */
  lemma HeadPrecedesRest<T>(s: seq<T>, le: (T, T) -> bool)
    requires s != [] && SortedBy(s, le)
    ensures forall y :: y in multiset(s[1..]) ==> le(s[0], y)
  {
    forall y | y in multiset(s[1..]) ensures le(s[0], y) {
      var k :| 0 <= k < |s[1..]| && s[1..][k] == y;
      assert s[k + 1] == y;
    }
  }

  /** An element that precedes every element of a sorted sequence can go in
      front of it. */
  lemma ConsSorted<T>(a: T, s: seq<T>, le: (T, T) -> bool)
    requires SortedBy(s, le)
    requires forall y :: y in multiset(s) ==> le(a, y)
    ensures SortedBy([a] + s, le)
  {
    forall i, j | 0 <= i < j < |[a] + s| ensures le(([a] + s)[i], ([a] + s)[j]) {
      if i == 0 {
        assert ([a] + s)[j] == s[j - 1];
        assert s[j - 1] in multiset(s);
      } else {
        assert ([a] + s)[i] == s[i - 1] && ([a] + s)[j] == s[j - 1];
      }
    }
  }

  /** Insert `x` into the sorted sequence `s` before the first element it
      precedes. */
  function InsertBy<T(!new)>(x: T, s: seq<T>, le: (T, T) -> bool): (r: seq<T>)
    requires TotalPreorder(le)
    requires SortedBy(s, le)
    ensures multiset(r) == multiset(s) + multiset{x}
    ensures SortedBy(r, le)
  {
    if s == [] then [x]
    else if le(x, s[0]) then
      ConsSorted(x, s, le);
      [x] + s
    else
      var rest := InsertBy(x, s[1..], le);
      assert multiset(s) == multiset{s[0]} + multiset(s[1..]) by {
        assert s == [s[0]] + s[1..];
      }
      HeadPrecedesRest(s, le);
      assert le(s[0], x);
      ConsSorted(s[0], rest, le);
      [s[0]] + rest
  }

  /** The elements of `s`, rearranged into `le` order. */
  function SortBy<T(!new)>(s: seq<T>, le: (T, T) -> bool): (r: seq<T>)
    requires TotalPreorder(le)
    ensures multiset(r) == multiset(s)
    ensures SortedBy(r, le)
  {
    if s == [] then []
    else
      assert s == [s[0]] + s[1..];
      InsertBy(s[0], SortBy(s[1..], le), le)
  }

  /** Sorting keeps exactly the elements of the input, with their number. */
  lemma SortByKeepsElements<T(!new)>(s: seq<T>, le: (T, T) -> bool)
    requires TotalPreorder(le)
    ensures |SortBy(s, le)| == |s|
    ensures forall x :: x in SortBy(s, le) <==> x in s
  {
    var r := SortBy(s, le);
    assert |r| == |multiset(r)| == |multiset(s)| == |s|;
    forall x ensures x in r <==> x in s {
      assert x in r <==> x in multiset(r);
      assert x in s <==> x in multiset(s);
    }
  }

  /** Comparing by a name key in `StrLe` order is a total preorder. */
  lemma NameOrderIsTotalPreorder<R(!new)>(name: R -> string, le: (R, R) -> bool)
    requires forall x, y :: le(x, y) == StrLe(name(x), name(y))
    ensures TotalPreorder(le)
  {
    forall x: R, y: R ensures le(x, y) || le(y, x) {
      StrLeTotal(name(x), name(y));
    }
    forall x: R, y: R, z: R | le(x, y) && le(y, z) ensures le(x, z) {
      StrLeTransitive(name(x), name(y), name(z));
    }
  }

  /** Names in ascending order, as `.sort('name')` returns documents. */
  function ByName<R(!new)>(name: R -> string): (le: (R, R) -> bool)
    ensures forall x, y :: le(x, y) == StrLe(name(x), name(y))
    ensures TotalPreorder(le)
  {
    var le := (x: R, y: R) => StrLe(name(x), name(y));
    NameOrderIsTotalPreorder(name, le);
    le
  }

  /** An element at two positions of a sequence occurs in it at least twice. */
  lemma TwoPositionsCountTwice<T>(s: seq<T>, i: nat, j: nat)
    requires i < j < |s| && s[i] == s[j]
    ensures multiset(s)[s[i]] >= 2
  {
    assert s == s[..j] + s[j..];
    assert s[i] in s[..j];
    assert s[j] in s[j..];
    assert multiset(s) == multiset(s[..j]) + multiset(s[j..]);
  }

  /** In a sequence without repetitions every element occurs at most once. */
  lemma {:induction false} DistinctCountsOnce<T>(s: seq<T>, x: T)
    requires forall i, j :: 0 <= i < j < |s| ==> s[i] != s[j]
    ensures multiset(s)[x] <= 1
  {
    if s != [] {
      assert s == [s[0]] + s[1..];
      assert multiset(s) == multiset{s[0]} + multiset(s[1..]);
      DistinctCountsOnce(s[1..], x);
      if s[0] == x {
        assert x !in s[1..] by {
          forall k | 0 <= k < |s[1..]| ensures s[1..][k] != x {
            assert s[1..][k] == s[k + 1];
          }
        }
      }
    }
  }

  /** Rearranging a sequence without repetitions cannot create one. */
  lemma RearrangedStaysDistinct<T>(a: seq<T>, b: seq<T>)
    requires multiset(a) == multiset(b)
    requires forall i, j :: 0 <= i < j < |a| ==> a[i] != a[j]
    ensures forall i, j :: 0 <= i < j < |b| ==> b[i] != b[j]
  {
    forall i, j | 0 <= i < j < |b| ensures b[i] != b[j] {
      if b[i] == b[j] {
        TwoPositionsCountTwice(b, i, j);
        DistinctCountsOnce(a, b[i]);
        assert false;
      }
    }
  }
}
