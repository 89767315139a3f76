/**
 * Prisma's `orderBy: { createdAt: "desc" }`, for the rows of any table: `key` reads a row's
 * `createdAt`. The sort is stable, so rows created at the same instant keep table order.
 */
module Ordering {

  /** Inserting `x` before the first row that is not newer than it. */
  function InsertDesc<T>(x: T, s: seq<T>, key: T -> int): (r: seq<T>)
    ensures |r| == |s| + 1
  {
    if s == [] || key(s[0]) <= key(x) then [x] + s else [s[0]] + InsertDesc(x, s[1..], key)
  }

  /** Newest first; rows with equal keys keep table order. */
  function SortDesc<T>(s: seq<T>, key: T -> int): (r: seq<T>)
    ensures |r| == |s|
  {
    if s == [] then [] else InsertDesc(s[0], SortDesc(s[1..], key), key)
  }

  predicate Descending<T>(s: seq<T>, key: T -> int) {
    forall i, j :: 0 <= i < j < |s| ==> key(s[i]) >= key(s[j])
  }

  /** No row of `s` is newer than `t`. */
  predicate AtMost<T>(s: seq<T>, key: T -> int, t: int) {
    forall i :: 0 <= i < |s| ==> key(s[i]) <= t
  }

  lemma {:induction false} InsertAtMost<T>(x: T, s: seq<T>, key: T -> int, t: int)
    requires AtMost(s, key, t) && key(x) <= t
    ensures AtMost(InsertDesc(x, s, key), key, t)
    decreases |s|
  {
    if s != [] && key(s[0]) > key(x) {
      InsertAtMost(x, s[1..], key, t);
    }
  }

  lemma {:induction false} InsertPermutes<T>(x: T, s: seq<T>, key: T -> int)
    ensures multiset(InsertDesc(x, s, key)) == multiset(s) + multiset{x}
    decreases |s|
  {
    if s != [] && key(s[0]) > key(x) {
      InsertPermutes(x, s[1..], key);
      assert s == [s[0]] + s[1..];
    }
  }

  lemma ConsDescending<T>(x: T, r: seq<T>, key: T -> int)
    requires AtMost(r, key, key(x)) && Descending(r, key)
    ensures Descending([x] + r, key)
  {
    var s := [x] + r;
    forall i, j | 0 <= i < j < |s| ensures key(s[i]) >= key(s[j]) {
      if i > 0 {
        assert s[i] == r[i - 1] && s[j] == r[j - 1];
      } else {
        assert s[j] == r[j - 1];
      }
    }
  }

  lemma TailDescending<T>(s: seq<T>, key: T -> int)
    requires Descending(s, key) && s != []
    ensures Descending(s[1..], key) && AtMost(s[1..], key, key(s[0]))
  {
    assert forall i :: 0 <= i < |s| - 1 ==> s[1..][i] == s[i + 1];
  }

  lemma {:induction false} InsertDescending<T>(x: T, s: seq<T>, key: T -> int)
    requires Descending(s, key)
    ensures Descending(InsertDesc(x, s, key), key)
    decreases |s|
  {
    if s == [] || key(s[0]) <= key(x) {
      assert AtMost(s, key, key(x)) by {
        assert forall j :: 0 <= j < |s| ==> key(s[j]) <= key(s[0]);
      }
      ConsDescending(x, s, key);
    } else {
      var tail := s[1..];
      TailDescending(s, key);
      InsertDescending(x, tail, key);
      InsertAtMost(x, tail, key, key(s[0]));
      ConsDescending(s[0], InsertDesc(x, tail, key), key);
    }
  }

  /** The rows come out newest first, and they are the rows that went in. */
  lemma {:induction false} SortIsSortedPermutation<T>(s: seq<T>, key: T -> int)
    ensures Descending(SortDesc(s, key), key)
    ensures multiset(SortDesc(s, key)) == multiset(s)
    decreases |s|
  {
    if s != [] {
      SortIsSortedPermutation(s[1..], key);
      InsertDescending(s[0], SortDesc(s[1..], key), key);
      InsertPermutes(s[0], SortDesc(s[1..], key), key);
      assert s == [s[0]] + s[1..];
    }
  }

  /** A row newer than every row already in the table is listed first, ahead of the old order. */
  lemma {:induction false} NewestIsFirst<T>(s: seq<T>, x: T, key: T -> int)
    requires forall i :: 0 <= i < |s| ==> key(s[i]) < key(x)
    ensures SortDesc(s + [x], key) == [x] + SortDesc(s, key)
    decreases |s|
  {
    if s == [] {
      assert s + [x] == [x];
    } else {
      var t := s + [x];
      assert t[0] == s[0] && t[1..] == s[1..] + [x];
      NewestIsFirst(s[1..], x, key);
      assert SortDesc(t, key) == InsertDesc(s[0], [x] + SortDesc(s[1..], key), key);
      assert ([x] + SortDesc(s[1..], key))[1..] == SortDesc(s[1..], key);
    }
  }
}
