/** Generic sequence operations used by the synchronisation model: filtering,
    a stable insertion sort parameterised by an ordering (the model of
    JavaScript's Array.prototype.sort with and without a comparator),
    first-match search and index lookup. */
module Seqs {

  /** The usual optional value (the source's `undefined`). */
  datatype Option<T> = None | Some(value: T)

  /** `le` relates every pair of values one way or the other, transitively:
      a sort key with possible ties. */
  ghost predicate TotalPreorder<T(!new)>(le: (T, T) -> bool) {
    && (forall a, b :: le(a, b) || le(b, a))
    && (forall a, b, c :: le(a, b) && le(b, c) ==> le(a, c))
  }

  ghost predicate Sorted<T>(s: seq<T>, le: (T, T) -> bool) {
    forall i, j :: 0 <= i < j < |s| ==> le(s[i], s[j])
  }

  ghost predicate NoDup<T>(s: seq<T>) {
    forall i, j :: 0 <= i < j < |s| ==> s[i] != s[j]
  }

  /** The elements of `s` that satisfy `p`, in their original order. */
  function Filter<T>(s: seq<T>, p: T -> bool): seq<T> {
    if s == [] then []
    else Filter(s[..|s| - 1], p) + (if p(s[|s| - 1]) then [s[|s| - 1]] else [])
  }

  /** Filter keeps exactly the elements that satisfy `p`. */
  lemma {:induction false} FilterMembers<T>(s: seq<T>, p: T -> bool)
    ensures forall x :: x in Filter(s, p) <==> x in s && p(x)
  {
    if s != [] {
      var front := s[..|s| - 1];
      assert s == front + [s[|s| - 1]];
      FilterMembers(front, p);
    }
  }

  /** Filter keeps every occurrence of an element that satisfies `p` and
      none of the others. */
  lemma {:induction false} FilterMultiset<T>(s: seq<T>, p: T -> bool)
    ensures forall x :: multiset(Filter(s, p))[x] == if p(x) then multiset(s)[x] else 0
  {
    if s != [] {
      var front := s[..|s| - 1];
      assert s == front + [s[|s| - 1]];
      FilterMultiset(front, p);
    }
  }

  function Map<T, U>(s: seq<T>, f: T -> U): seq<U> {
    seq(|s|, i requires 0 <= i < |s| => f(s[i]))
  }

  /** Inserts `x` into `s` before the first element it does not follow,
      so that in a sorted `s` it precedes the elements it ties with. */
  function Insert<T>(x: T, s: seq<T>, le: (T, T) -> bool): seq<T> {
    if s == [] || le(x, s[0]) then [x] + s
    else [s[0]] + Insert(x, s[1..], le)
  }

  lemma {:induction false} InsertPermutation<T>(x: T, s: seq<T>, le: (T, T) -> bool)
    ensures multiset(Insert(x, s, le)) == multiset(s) + multiset{x}
  {
    if s != [] && !le(x, s[0]) {
      assert s == [s[0]] + s[1..];
      InsertPermutation(x, s[1..], le);
    }
  }

  lemma {:induction false} InsertSorted<T(!new)>(x: T, s: seq<T>, le: (T, T) -> bool)
    requires TotalPreorder(le)
    requires Sorted(s, le)
    ensures Sorted(Insert(x, s, le), le)
  {
    if s == [] {
    } else if le(x, s[0]) {
      forall z | z in s ensures le(x, z) {
        var k :| 0 <= k < |s| && s[k] == z;
        if k > 0 { assert le(s[0], s[k]); }
      }
      SortedCons(x, s, le);
    } else {
      var rest := Insert(x, s[1..], le);
      assert s == [s[0]] + s[1..];
      assert Sorted(s[1..], le) by {
        forall i, j | 0 <= i < j < |s[1..]| ensures le(s[1..][i], s[1..][j]) {
          assert s[1..][i] == s[i + 1] && s[1..][j] == s[j + 1];
        }
      }
      InsertSorted(x, s[1..], le);
      InsertPermutation(x, s[1..], le);
      forall z | z in rest ensures le(s[0], z) {
        assert z in multiset(rest);
        if z != x {
          assert z in multiset(s[1..]);
          var k :| 0 <= k < |s[1..]| && s[1..][k] == z;
          assert le(s[0], s[k + 1]);
        }
      }
      SortedCons(s[0], rest, le);
    }
  }

  lemma {:induction false} InsertNoDup<T>(x: T, s: seq<T>, le: (T, T) -> bool)
    requires NoDup(s) && x !in s
    ensures NoDup(Insert(x, s, le))
  {
    if s != [] && !le(x, s[0]) {
      var rest := Insert(x, s[1..], le);
      assert s == [s[0]] + s[1..];
      InsertNoDup(x, s[1..], le);
      InsertPermutation(x, s[1..], le);
      assert s[0] !in rest by {
        assert s[0] != x;
        assert s[0] !in multiset(s[1..]);
        assert s[0] !in multiset(rest);
      }
      NoDupCons(s[0], rest);
    } else {
      NoDupCons(x, s);
    }
  }

  lemma SortedCons<T>(x: T, s: seq<T>, le: (T, T) -> bool)
    requires Sorted(s, le)
    requires forall z :: z in s ==> le(x, z)
    ensures Sorted([x] + s, le)
  {
    forall i, j | 0 <= i < j < |[x] + s| ensures le(([x] + s)[i], ([x] + s)[j]) {
      if i == 0 { assert ([x] + s)[j] == s[j - 1]; }
    }
  }

  lemma NoDupCons<T>(x: T, s: seq<T>)
    ensures NoDup(s) && x !in s ==> NoDup([x] + s)
  {
  }

  /** Insertion sort: a permutation of `s`. Under a total preorder it is
      ordered (SortBySorted), and elements that tie keep their relative
      order, as in JavaScript's stable sort. */
  function SortBy<T>(s: seq<T>, le: (T, T) -> bool): seq<T> {
    if s == [] then [] else Insert(s[0], SortBy(s[1..], le), le)
  }

  lemma {:induction false} SortByPermutation<T>(s: seq<T>, le: (T, T) -> bool)
    ensures multiset(SortBy(s, le)) == multiset(s)
  {
    if s != [] {
      assert s == [s[0]] + s[1..];
      SortByPermutation(s[1..], le);
      InsertPermutation(s[0], SortBy(s[1..], le), le);
    }
  }

  lemma SortByMembers<T>(s: seq<T>, le: (T, T) -> bool)
    ensures forall x :: x in SortBy(s, le) <==> x in s
  {
    var r := SortBy(s, le);
    SortByPermutation(s, le);
    forall x ensures x in r <==> x in s {
      assert x in r <==> x in multiset(r);
      assert x in s <==> x in multiset(s);
    }
  }

  lemma {:induction false} SortBySorted<T(!new)>(s: seq<T>, le: (T, T) -> bool)
    requires TotalPreorder(le)
    ensures Sorted(SortBy(s, le), le)
  {
    if s != [] {
      SortBySorted(s[1..], le);
      InsertSorted(s[0], SortBy(s[1..], le), le);
    }
  }

  lemma {:induction false} SortByNoDup<T>(s: seq<T>, le: (T, T) -> bool)
    requires NoDup(s)
    ensures NoDup(SortBy(s, le))
  {
    if s != [] {
      var rest := SortBy(s[1..], le);
      assert s == [s[0]] + s[1..];
      assert NoDup(s[1..]) by {
        forall i, j | 0 <= i < j < |s[1..]| ensures s[1..][i] != s[1..][j] {
          assert s[1..][i] == s[i + 1] && s[1..][j] == s[j + 1];
        }
      }
      SortByNoDup(s[1..], le);
      SortByPermutation(s[1..], le);
      assert s[0] !in rest by {
        assert s[0] !in s[1..];
        assert s[0] !in multiset(s[1..]);
        assert s[0] !in multiset(rest);
      }
      InsertNoDup(s[0], rest, le);
    }
  }

  /** Index of the first element satisfying `p`; |s| when there is none. */
  function FirstIndex<T>(s: seq<T>, p: T -> bool): (k: nat)
    ensures k <= |s|
    ensures k < |s| ==> p(s[k])
    ensures forall j :: 0 <= j < k ==> !p(s[j])
  {
    if s == [] then 0
    else if p(s[0]) then 0
    else 1 + FirstIndex(s[1..], p)
  }

  /** Index of the first occurrence of `x`; |s| when it does not occur. */
  function IndexOf<T(==)>(s: seq<T>, x: T): (k: nat)
    ensures k <= |s|
    ensures k < |s| <==> x in s
    ensures k < |s| ==> s[k] == x
    ensures forall j :: 0 <= j < k ==> s[j] != x
  {
    if s == [] then 0
    else if s[0] == x then 0
    else 1 + IndexOf(s[1..], x)
  }

  /** In a sequence without duplicates an element's index is its position. */
  lemma {:induction false} IndexOfNoDup<T>(s: seq<T>, k: nat)
    requires NoDup(s) && k < |s|
    ensures IndexOf(s, s[k]) == k
  {
    if k > 0 {
      assert s[0] != s[k];
      assert s[1..][k - 1] == s[k];
      IndexOfNoDup(s[1..], k - 1);
    }
  }

  /** For each of 0..n-1, its position in `s`, or |s| when it does not
      occur: the inverse of a sequence of distinct indices. */
  function Ranks(s: seq<nat>, n: nat): (rank: seq<nat>)
    requires NoDup(s)
    ensures |rank| == n
    ensures forall i :: 0 <= i < n ==> rank[i] <= |s|
    ensures forall i :: 0 <= i < n && rank[i] < |s| ==> s[rank[i]] == i
    ensures forall i {:trigger rank[i]} :: 0 <= i < n && rank[i] == |s| ==> i !in s
    ensures forall k {:trigger rank[s[k]]} :: 0 <= k < |s| && s[k] < n ==> rank[s[k]] == k
  {
    if n == 0 then []
    else
      var front := Ranks(s, n - 1);
      var last := IndexOf(s, n - 1);
      var rank := front + [last];
      assert forall i :: 0 <= i < n - 1 ==> rank[i] == front[i];
      assert forall k :: 0 <= k < |s| && s[k] == n - 1 ==> last == k by {
        forall k | 0 <= k < |s| && s[k] == n - 1 ensures last == k {
          IndexOfNoDup(s, k);
        }
      }
      rank
  }

  /** Two sorted sequences without duplicates that hold the same elements
      are equal, provided `le` never ties two distinct elements. */
  lemma {:induction false} SortedUnique<T>(a: seq<T>, b: seq<T>, le: (T, T) -> bool)
    requires Sorted(a, le) && Sorted(b, le)
    requires NoDup(a) && NoDup(b)
    requires forall x :: x in a <==> x in b
    requires forall x, y :: x in a && y in a && le(x, y) && le(y, x) ==> x == y
    ensures a == b
  {
    assert |b| > 0 ==> b[0] in b;
    assert |a| > 0 ==> a[0] in a;
    if a != [] && b != [] {
      var j := IndexOf(b, a[0]);
      var i := IndexOf(a, b[0]);
      var a0, b0, bj, ai := a[0], b[0], b[j], a[i];
      assert j > 0 ==> le(b0, bj);
      assert i > 0 ==> le(a0, ai);
      assert a[0] == b[0];
      var a', b' := a[1..], b[1..];
      forall x ensures x in a' <==> x in b' {
        if x in a' {
          var p :| 0 <= p < |a'| && a'[p] == x;
          assert a[p + 1] == x;
          assert x in b;
          assert x != b[0];
        }
        if x in b' {
          var p :| 0 <= p < |b'| && b'[p] == x;
          assert b[p + 1] == x;
          assert x in a;
          assert x != a[0];
        }
      }
      SortedUnique(a', b', le);
      assert a == [a[0]] + a' && b == [b[0]] + b';
    }
  }
}
