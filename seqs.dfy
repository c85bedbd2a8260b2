/**
 * The list operations that the handlers and queries are built from:
 * `WHERE`/`filter`, `COUNT`, `ORDER BY` (a stable sort on an integer key,
 * as `Array.prototype.sort` and LINQ's `OrderBy` are) and `LIMIT`/`OFFSET`.
 */
module Seqs {

  /** `s.filter(p)` / `WHERE p`: the elements satisfying `p`, in their original order. */
  function Filter<T>(s: seq<T>, p: T -> bool): (r: seq<T>)
    ensures |r| <= |s|
    ensures forall y | y in r :: y in s && p(y)
    ensures forall i | 0 <= i < |s| && p(s[i]) :: s[i] in r
  {
    if s == [] then []
    else if p(s[0]) then [s[0]] + Filter(s[1..], p)
    else Filter(s[1..], p)
  }

  /** Filtering keeps exactly the multiplicity of every selected element. */
  lemma {:induction false} FilterMultiset<T>(s: seq<T>, p: T -> bool, x: T)
    ensures multiset(Filter(s, p))[x] == if p(x) then multiset(s)[x] else 0
  {
    if s != [] {
      FilterMultiset(s[1..], p, x);
      assert s == [s[0]] + s[1..];
    }
  }

  /** `COUNT(*) WHERE p`. */
  function Count<T>(s: seq<T>, p: T -> bool): (n: nat)
    ensures n <= |s|
    ensures n == 0 <==> forall i | 0 <= i < |s| :: !p(s[i])
  {
    if s == [] then 0
    else (if p(s[0]) then 1 else 0) + Count(s[1..], p)
  }

  /** Counting is the size of the filter. */
  lemma {:induction false} CountIsFilterSize<T>(s: seq<T>, p: T -> bool)
    ensures Count(s, p) == |Filter(s, p)|
  {
    if s != [] {
      CountIsFilterSize(s[1..], p);
    }
  }

  /** `OFFSET offset LIMIT limit` on an already ordered list. */
  function Page<T>(s: seq<T>, limit: nat, offset: nat): (r: seq<T>)
    ensures |r| <= limit
    ensures offset >= |s| ==> r == []
    ensures offset < |s| ==> |r| == (if |s| - offset < limit then |s| - offset else limit)
    ensures forall k | 0 <= k < |r| :: offset + k < |s| && r[k] == s[offset + k]
  {
    var rest := if offset < |s| then s[offset..] else [];
    if |rest| <= limit then rest else rest[..limit]
  }

  /** Two consecutive pages make up the page of their combined size. */
  lemma PagesJoin<T>(s: seq<T>, a: nat, b: nat, offset: nat)
    ensures Page(s, a, offset) + Page(s, b, offset + a) == Page(s, a + b, offset)
  {
    var p, q, r := Page(s, a, offset), Page(s, b, offset + a), Page(s, a + b, offset);
    if offset + a < |s| {
      assert |p| == a;
      forall k | 0 <= k < |r| ensures (p + q)[k] == r[k] {
        if k >= a {
          assert q[k - a] == s[offset + a + (k - a)];
        }
      }
    }
  }

  /** The first `n` of a list sorted newest first are the newest: whatever is left out is no newer than anything kept. */
  lemma PageOfSortedIsTop<T>(s: seq<T>, key: T -> int, n: nat, x: T)
    requires SortedDescBy(s, key) && x in s
    ensures x in Page(s, n, 0) || forall y | y in Page(s, n, 0) :: key(x) <= key(y)
  {
    var r := Page(s, n, 0);
    var i :| 0 <= i < |s| && s[i] == x;
    if i < |r| {
      assert r[i] == x;
    } else {
      forall y | y in r ensures key(x) <= key(y) {
        var k :| 0 <= k < |r| && r[k] == y;
        assert r[k] == s[k];
      }
    }
  }

  predicate SortedBy<T>(s: seq<T>, key: T -> int) {
    forall i, j | 0 <= i < j < |s| :: key(s[i]) <= key(s[j])
  }

  predicate SortedDescBy<T>(s: seq<T>, key: T -> int) {
    forall i, j | 0 <= i < j < |s| :: key(s[i]) >= key(s[j])
  }

  /** A sorted sequence stays sorted when an element no greater than its head is put in front. */
  lemma ConsSorted<T>(a: T, s: seq<T>, key: T -> int)
    requires SortedBy(s, key) && (s != [] ==> key(a) <= key(s[0]))
    ensures SortedBy([a] + s, key)
  {
    var r := [a] + s;
    forall i, j | 0 <= i < j < |r| ensures key(r[i]) <= key(r[j]) {
      if i == 0 {
        assert r[j] == s[j - 1];
      } else {
        assert r[i] == s[i - 1] && r[j] == s[j - 1];
      }
    }
  }

  /** Insert `x` after every element whose key is not greater: keeps the sort stable. */
  function Insert<T>(x: T, s: seq<T>, key: T -> int): (r: seq<T>)
    requires SortedBy(s, key)
    ensures SortedBy(r, key)
    ensures multiset(r) == multiset(s) + multiset{x}
    ensures |r| == |s| + 1 && (r[0] == x || (s != [] && r[0] == s[0]))
  {
    if s == [] then [x]
    else if key(x) < key(s[0]) then ConsSorted(x, s, key); [x] + s
    else
      var rest := Insert(x, s[1..], key);
      assert s == [s[0]] + s[1..];
      ConsSorted(s[0], rest, key);
      [s[0]] + rest
  }

  /** Stable ascending sort on `key`. */
  function SortBy<T>(s: seq<T>, key: T -> int): (r: seq<T>)
    ensures SortedBy(r, key)
    ensures multiset(r) == multiset(s)
    ensures |r| == |s|
  {
    if s == [] then []
    else
      assert s == s[..|s| - 1] + [s[|s| - 1]];
      var r := Insert(s[|s| - 1], SortBy(s[..|s| - 1], key), key);
      assert |r| == |multiset(r)| == |multiset(s)| == |s|;
      r
  }

  /** Stable descending sort on `key` (`ORDER BY key DESC`, `OrderByDescending`). */
  function SortDescBy<T>(s: seq<T>, key: T -> int): (r: seq<T>)
    ensures SortedDescBy(r, key)
    ensures multiset(r) == multiset(s)
    ensures |r| == |s|
  {
    var neg := (x: T) => -key(x);
    var r := SortBy(s, neg);
    assert forall i, j | 0 <= i < j < |r| :: neg(r[i]) <= neg(r[j]);
    r
  }

  /** A permutation has the same members: used to carry membership facts through a sort. */
  lemma SameMembers<T>(a: seq<T>, b: seq<T>)
    requires multiset(a) == multiset(b)
    ensures forall x :: x in a <==> x in b
  {
    forall x ensures x in a <==> x in b {
      assert x in a <==> x in multiset(a);
      assert x in b <==> x in multiset(b);
    }
  }

  predicate Distinct<T(==)>(s: seq<T>) {
    forall i, j | 0 <= i < j < |s| :: s[i] != s[j]
  }

  /** An element of a repetition-free sequence occurs at most once. */
  lemma {:induction false} DistinctAtMostOnce<T>(a: seq<T>, v: T)
    requires Distinct(a)
    ensures multiset(a)[v] <= 1
  {
    if a != [] {
      DistinctAtMostOnce(a[1..], v);
      assert a == [a[0]] + a[1..];
      if a[0] == v {
        assert v !in a[1..];
      }
    }
  }

  /** A permutation of a repetition-free sequence is repetition-free. */
  lemma DistinctPermutation<T>(a: seq<T>, b: seq<T>)
    requires Distinct(a) && multiset(a) == multiset(b)
    ensures Distinct(b)
  {
    forall i, j | 0 <= i < j < |b| ensures b[i] != b[j] {
      if b[i] == b[j] {
        assert b == b[..i] + [b[i]] + b[i + 1..j] + [b[j]] + b[j + 1..];
        assert multiset(b)[b[i]] >= 2;
        DistinctAtMostOnce(a, b[i]);
      }
    }
  }
}
