/** Stable sorting by an integer key, as `sort_by_key` does. */
module StableSort {

  ghost predicate SortedBy<T>(key: T -> int, s: seq<T>) {
    forall i, j | 0 <= i < j < |s| :: key(s[i]) <= key(s[j])
  }

  /** Places `x` behind everything whose key is not larger. */
  function InsertBy<T(!new)>(key: T -> int, s: seq<T>, x: T): (r: seq<T>)
    ensures multiset(r) == multiset(s) + multiset{x}
    ensures forall y :: y in r <==> y in s || y == x
  {
    if s == [] || key(x) < key(s[0]) then [x] + s
    else
      assert s == [s[0]] + s[1..];
      [s[0]] + InsertBy(key, s[1..], x)
  }

  lemma {:induction false} InsertBySorted<T(!new)>(key: T -> int, s: seq<T>, x: T)
    requires SortedBy(key, s)
    ensures SortedBy(key, InsertBy(key, s, x))
  {
    if s != [] && key(s[0]) <= key(x) {
      InsertBySorted(key, s[1..], x);
      var rest := InsertBy(key, s[1..], x);
      forall i | 0 <= i < |rest| ensures key(s[0]) <= key(rest[i]) {
        assert rest[i] in rest;
      }
    }
  }

  function SortBy<T(!new)>(key: T -> int, s: seq<T>): (r: seq<T>)
    ensures multiset(r) == multiset(s)
    ensures SortedBy(key, r)
  {
    if s == [] then []
    else
      assert s == s[..|s| - 1] + [s[|s| - 1]];
      InsertBySorted(key, SortBy(key, s[..|s| - 1]), s[|s| - 1]);
      InsertBy(key, SortBy(key, s[..|s| - 1]), s[|s| - 1])
  }

  /** The elements with one key, in the order they stand. */
  function Bucket<T>(key: T -> int, s: seq<T>, k: int): seq<T> {
    if s == [] then [] else (if key(s[0]) == k then [s[0]] else []) + Bucket(key, s[1..], k)
  }

  lemma {:induction false} BucketConcat<T>(key: T -> int, a: seq<T>, b: seq<T>, k: int)
    ensures Bucket(key, a + b, k) == Bucket(key, a, k) + Bucket(key, b, k)
  {
    if a == [] {
      assert a + b == b;
    } else {
      assert (a + b)[0] == a[0] && (a + b)[1..] == a[1..] + b;
      BucketConcat(key, a[1..], b, k);
      var head := if key(a[0]) == k then [a[0]] else [];
      assert Bucket(key, a, k) == head + Bucket(key, a[1..], k);
      assert Bucket(key, a + b, k) == head + Bucket(key, a[1..] + b, k);
    }
  }

  lemma {:induction false} BucketEmpty<T>(key: T -> int, s: seq<T>, k: int)
    requires forall i | 0 <= i < |s| :: key(s[i]) != k
    ensures Bucket(key, s, k) == []
  {
    if s != [] {
      BucketEmpty(key, s[1..], k);
    }
  }

  lemma {:induction false} InsertByBucket<T(!new)>(key: T -> int, s: seq<T>, x: T, k: int)
    requires SortedBy(key, s)
    ensures Bucket(key, InsertBy(key, s, x), k) == Bucket(key, s, k) + Bucket(key, [x], k)
  {
    if s == [] || key(x) < key(s[0]) {
      BucketConcat(key, [x], s, k);
      if key(x) == k {
        assert forall i | 0 <= i < |s| :: key(s[0]) <= key(s[i]);
        BucketEmpty(key, s, k);
      }
    } else {
      assert SortedBy(key, s[1..]);
      hide SortedBy;
      InsertByBucket(key, s[1..], x, k);
      BucketConcat(key, [s[0]], InsertBy(key, s[1..], x), k);
      BucketConcat(key, [s[0]], s[1..], k);
      assert s == [s[0]] + s[1..];
    }
  }

  /** Sorting keeps elements of equal key in their original order. */
  lemma {:induction false} SortByStable<T(!new)>(key: T -> int, s: seq<T>, k: int)
    ensures Bucket(key, SortBy(key, s), k) == Bucket(key, s, k)
  {
    if s != [] {
      var front, last := s[..|s| - 1], s[|s| - 1];
      assert s == front + [last];
      SortByStable(key, front, k);
      InsertByBucket(key, SortBy(key, front), last, k);
      BucketConcat(key, front, [last], k);
    }
  }

  ghost predicate AllDistinct<T>(s: seq<T>) {
    forall i, j | 0 <= i < j < |s| :: s[i] != s[j]
  }

  lemma {:induction false} DistinctOnce<T>(s: seq<T>, x: T)
    requires AllDistinct(s)
    ensures multiset(s)[x] <= 1
    ensures x !in s ==> multiset(s)[x] == 0
  {
    if s != [] {
      assert s == [s[0]] + s[1..];
      DistinctOnce(s[1..], x);
    }
  }

  lemma DistinctPermutation<T>(s: seq<T>, r: seq<T>)
    requires AllDistinct(s) && multiset(s) == multiset(r)
    ensures AllDistinct(r)
  {
    forall i, j | 0 <= i < j < |r| ensures r[i] != r[j] {
      assert r == r[..i] + [r[i]] + r[i + 1..j] + [r[j]] + r[j + 1..];
      DistinctOnce(s, r[i]);
    }
  }
}
