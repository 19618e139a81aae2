/**
 * `Array.prototype.sort` with a numeric comparator, which ECMAScript
 * requires to be stable, and `Array.prototype.slice(0, end)`.
 */
module Sorting {

  predicate SortedDesc<T>(s: seq<T>, key: T -> int) {
    forall i, j :: 0 <= i < j < |s| ==> key(s[i]) >= key(s[j])
  }

  /** Places `x` after every element whose key is at least its own. */
  function InsertDesc<T>(x: T, s: seq<T>, key: T -> int): (r: seq<T>)
    ensures |r| == |s| + 1
  {
    if s == [] then [x]
    else if key(s[0]) >= key(x) then [s[0]] + InsertDesc(x, s[1..], key)
    else [x] + s
  }

  /** Every key of the insertion result is bounded by any bound of `x` and of `s`. */
  lemma {:induction false} InsertDescBound<T>(x: T, s: seq<T>, key: T -> int, b: int)
    requires key(x) <= b
    requires forall i :: 0 <= i < |s| ==> key(s[i]) <= b
    ensures forall i :: 0 <= i < |s| + 1 ==> key(InsertDesc(x, s, key)[i]) <= b
  {
    if s != [] && key(s[0]) >= key(x) {
      InsertDescBound(x, s[1..], key, b);
    }
  }

  lemma {:induction false} InsertDescPermutes<T>(x: T, s: seq<T>, key: T -> int)
    ensures multiset(InsertDesc(x, s, key)) == multiset(s) + multiset{x}
  {
    if s != [] && key(s[0]) >= key(x) {
      InsertDescPermutes(x, s[1..], key);
      assert s == [s[0]] + s[1..];
    }
  }

  lemma {:induction false} InsertDescSorted<T>(x: T, s: seq<T>, key: T -> int)
    requires SortedDesc(s, key)
    ensures SortedDesc(InsertDesc(x, s, key), key)
  {
    if s != [] && key(s[0]) >= key(x) {
      var t := s[1..];
      InsertDescSorted(x, t, key);
      InsertDescBound(x, t, key, key(s[0]));
      var rec := InsertDesc(x, t, key);
      assert InsertDesc(x, s, key) == [s[0]] + rec;
    }
  }

  /**
   * `s.sort((a, b) => key(b) - key(a))`: descending by key; elements with
   * equal keys keep their relative order (insertion sort from the front).
   */
  function SortDesc<T>(s: seq<T>, key: T -> int): (r: seq<T>)
    ensures SortedDesc(r, key)
    ensures multiset(r) == multiset(s)
    ensures |r| == |s|
  {
    if s == [] then []
    else
      var init := s[..|s| - 1];
      assert s == init + [s[|s| - 1]];
      var sorted := SortDesc(init, key);
      InsertDescSorted(s[|s| - 1], sorted, key);
      InsertDescPermutes(s[|s| - 1], sorted, key);
      InsertDesc(s[|s| - 1], sorted, key)
  }

  /** Sorting keeps exactly the elements it was given. */
  lemma SortDescMembers<T>(s: seq<T>, key: T -> int)
    ensures forall x :: x in SortDesc(s, key) <==> x in s
  {
    var r := SortDesc(s, key);
    forall x
      ensures x in r <==> x in s
    {
      assert x in r <==> x in multiset(r);
      assert x in s <==> x in multiset(s);
    }
  }

  /** The elements of `s` whose key is `k`, in their order in `s`. */
  function WithKey<T>(s: seq<T>, key: T -> int, k: int): seq<T> {
    if s == [] then []
    else WithKey(s[..|s| - 1], key, k) + (if key(s[|s| - 1]) == k then [s[|s| - 1]] else [])
  }

  lemma {:induction false} WithKeyAppend<T>(a: seq<T>, b: seq<T>, key: T -> int, k: int)
    ensures WithKey(a + b, key, k) == WithKey(a, key, k) + WithKey(b, key, k)
  {
    if b == [] {
      assert a + b == a;
    } else {
      var b' := b[..|b| - 1];
      WithKeyAppend(a, b', key, k);
      assert (a + b)[..|a + b| - 1] == a + b';
    }
  }

  lemma {:induction false} WithKeyAbsent<T>(s: seq<T>, key: T -> int, k: int)
    requires forall i :: 0 <= i < |s| ==> key(s[i]) != k
    ensures WithKey(s, key, k) == []
  {
    if s != [] {
      WithKeyAbsent(s[..|s| - 1], key, k);
    }
  }

  /** Inserting `x` puts it after every element of `s` with its key. */
  lemma {:induction false} InsertDescWithKey<T>(x: T, s: seq<T>, key: T -> int, k: int)
    requires SortedDesc(s, key)
    ensures WithKey(InsertDesc(x, s, key), key, k) == WithKey(s, key, k) + WithKey([x], key, k)
  {
    if s == [] {
      assert InsertDesc(x, s, key) == [x];
      assert WithKey(s, key, k) == [];
    } else if key(s[0]) >= key(x) {
      SortedTail(s, key);
      InsertDescWithKey(x, s[1..], key, k);
      InsertAfterHead(x, s, key, k);
    } else {
      InsertBeforeHead(x, s, key, k);
    }
  }

  lemma SortedTail<T>(s: seq<T>, key: T -> int)
    requires s != [] && SortedDesc(s, key)
    ensures SortedDesc(s[1..], key)
  {
    var t := s[1..];
    forall i, j | 0 <= i < j < |t|
      ensures key(t[i]) >= key(t[j])
    {
      assert t[i] == s[i + 1] && t[j] == s[j + 1];
    }
  }

  lemma InsertAfterHead<T>(x: T, s: seq<T>, key: T -> int, k: int)
    requires s != [] && key(s[0]) >= key(x)
    requires WithKey(InsertDesc(x, s[1..], key), key, k) == WithKey(s[1..], key, k) + WithKey([x], key, k)
    ensures WithKey(InsertDesc(x, s, key), key, k) == WithKey(s, key, k) + WithKey([x], key, k)
  {
    var rest := InsertDesc(x, s[1..], key);
    assert InsertDesc(x, s, key) == [s[0]] + rest;
    WithKeyAppend([s[0]], rest, key, k);
    WithKeyAppend([s[0]], s[1..], key, k);
    assert s == [s[0]] + s[1..];
  }

  lemma InsertBeforeHead<T>(x: T, s: seq<T>, key: T -> int, k: int)
    requires s != [] && key(s[0]) < key(x) && SortedDesc(s, key)
    ensures WithKey(InsertDesc(x, s, key), key, k) == WithKey(s, key, k) + WithKey([x], key, k)
  {
    assert InsertDesc(x, s, key) == [x] + s;
    WithKeyAppend([x], s, key, k);
    assert WithKey([x], key, k) == WithKey([], key, k) + (if key(x) == k then [x] else []);
    if key(x) == k {
      assert forall i :: 0 <= i < |s| ==> key(s[i]) <= key(s[0]);
      WithKeyAbsent(s, key, k);
    } else {
      assert WithKey([x], key, k) == [];
    }
  }

  /**
   * Stability: for every key value, the elements with that key come out
   * of the sort in the order they went in.
   */
  lemma {:induction false} SortDescStable<T>(s: seq<T>, key: T -> int, k: int)
    ensures WithKey(SortDesc(s, key), key, k) == WithKey(s, key, k)
  {
    if s != [] {
      var init := s[..|s| - 1];
      var x := s[|s| - 1];
      SortDescStable(init, key, k);
      InsertDescWithKey(x, SortDesc(init, key), key, k);
      WithKeyAppend(init, [x], key, k);
      assert s == init + [x];
    }
  }

  /** Sorting a sequence that is already newest first changes nothing. */
  lemma {:induction false} SortDescSorted<T>(s: seq<T>, key: T -> int)
    requires SortedDesc(s, key)
    ensures SortDesc(s, key) == s
  {
    if s != [] {
      var init := s[..|s| - 1];
      SortDescSorted(init, key);
      InsertAtEnd(s[|s| - 1], init, key);
      assert s == init + [s[|s| - 1]];
    }
  }

  /** Sorting twice is sorting once. */
  lemma SortDescIdempotent<T>(s: seq<T>, key: T -> int)
    ensures SortDesc(SortDesc(s, key), key) == SortDesc(s, key)
  {
    SortDescSorted(SortDesc(s, key), key);
  }

  /** Sorting a sequence whose keys are all equal leaves it as it is. */
  lemma {:induction false} SortDescEqualKeys<T>(s: seq<T>, key: T -> int)
    requires forall i :: 0 <= i < |s| ==> key(s[i]) == key(s[0])
    ensures SortDesc(s, key) == s
  {
    if s != [] {
      var init := s[..|s| - 1];
      SortDescEqualKeys(init, key);
      InsertAtEnd(s[|s| - 1], init, key);
      assert s == init + [s[|s| - 1]];
    }
  }

  lemma {:induction false} InsertAtEnd<T>(x: T, s: seq<T>, key: T -> int)
    requires SortedDesc(s, key)
    requires forall i :: 0 <= i < |s| ==> key(s[i]) >= key(x)
    ensures InsertDesc(x, s, key) == s + [x]
  {
    if s != [] {
      InsertAtEnd(x, s[1..], key);
      assert s == [s[0]] + s[1..];
    }
  }

  /** An element with a greater key than all of `s` goes in front. */
  lemma InsertGreatestFirst<T>(x: T, s: seq<T>, key: T -> int)
    requires forall y :: y in s ==> key(y) < key(x)
    ensures InsertDesc(x, s, key) == [x] + s
  {
    if s != [] {
      assert s[0] in s;
    }
  }

  /** When the last element has the greatest key, sorting puts it first and sorts the rest behind it. */
  lemma SortGreatestLast<T>(s: seq<T>, key: T -> int)
    requires |s| >= 1
    requires forall y :: y in s[..|s| - 1] ==> key(y) < key(s[|s| - 1])
    ensures SortDesc(s, key) == [s[|s| - 1]] + SortDesc(s[..|s| - 1], key)
  {
    var init := s[..|s| - 1];
    var rest := SortDesc(init, key);
    assert SortDesc(s, key) == InsertDesc(s[|s| - 1], rest, key);
    SortDescMembers(init, key);
    InsertGreatestFirst(s[|s| - 1], rest, key);
  }

  /** The end index that `slice(0, end)` uses on an array of length `len`. */
  function SliceEnd(len: nat, end: int): (r: nat)
    ensures r <= len
    ensures 0 <= end ==> r == if end < len then end else len
    ensures end < 0 ==> r == if len + end > 0 then len + end else 0
  {
    if end < 0 then (if len + end > 0 then len + end else 0)
    else if end < len then end else len
  }

  /** `s.slice(0, end)`. */
  function Take<T>(s: seq<T>, end: int): (r: seq<T>)
    ensures r == s[..SliceEnd(|s|, end)]
  {
    s[..SliceEnd(|s|, end)]
  }

  /**
   * Sorting and then taking `slice(0, end)` keeps as many elements as the
   * slice allows, all of them from `s`, and leaves out no element with a
   * greater key than one it keeps.
   */
  lemma TakeSortDescGreatest<T>(s: seq<T>, key: T -> int, end: int)
    ensures var r := Take(SortDesc(s, key), end);
            && |r| == SliceEnd(|s|, end)
            && multiset(r) <= multiset(s)
            && forall x, y :: x in r && y in multiset(s) - multiset(r) ==> key(y) <= key(x)
  {
    var t := SortDesc(s, key);
    var n := SliceEnd(|s|, end);
    PrefixRest(t, n);
    PrefixGreatest(t, key, n);
  }

  /** What a prefix leaves out of a sequence's multiset is the rest of it. */
  /** A prefix of a sorted sequence is sorted. */
  lemma PrefixSorted<T>(t: seq<T>, key: T -> int, n: nat)
    requires n <= |t| && SortedDesc(t, key)
    ensures SortedDesc(t[..n], key)
  {
  }

  lemma PrefixRest<T>(t: seq<T>, n: nat)
    requires n <= |t|
    ensures multiset(t[..n]) <= multiset(t)
    ensures multiset(t) - multiset(t[..n]) == multiset(t[n..])
  {
    assert t == t[..n] + t[n..];
  }

  /** In a sequence sorted by descending key, nothing after a prefix has a greater key than anything in it. */
  lemma PrefixGreatest<T>(t: seq<T>, key: T -> int, n: nat)
    requires n <= |t| && SortedDesc(t, key)
    ensures forall x, y :: x in t[..n] && y in multiset(t[n..]) ==> key(y) <= key(x)
  {
    forall x, y | x in t[..n] && y in multiset(t[n..])
      ensures key(y) <= key(x)
    {
      var i :| 0 <= i < n && t[i] == x;
      assert y in t[n..];
      var j :| 0 <= j < |t| - n && t[n..][j] == y;
      assert t[n + j] == y;
    }
  }
}
