/**
 * A stable sort by an integer key. It stands for Python's `sorted(..., key=...)`
 * (which is stable) and for SQL `ORDER BY`, of which the model only relies on
 * "ordered by the key, and a permutation of the selected rows".
 */
module Sorting {

  predicate SortedBy<T>(s: seq<T>, key: T -> int) {
    forall i, j :: 0 <= i < j < |s| ==> key(s[i]) <= key(s[j])
  }

  /** The elements of `s` whose key is `k`, in their order in `s`. */
  function WithKey<T>(s: seq<T>, key: T -> int, k: int): (r: seq<T>)
    ensures |r| <= |s|
  {
    if s == [] then []
    else (if key(s[0]) == k then [s[0]] else []) + WithKey(s[1..], key, k)
  }

  /** Inserts `x` before the first element whose key is not smaller. */
  function Insert<T>(x: T, s: seq<T>, key: T -> int): (r: seq<T>)
    ensures |r| == |s| + 1
    ensures multiset(r) == multiset(s) + multiset{x}
    ensures r[0] == x || (s != [] && r[0] == s[0])
  {
    if s == [] || key(x) <= key(s[0]) then [x] + s
    else
      assert s == [s[0]] + s[1..];
      [s[0]] + Insert(x, s[1..], key)
  }

  lemma {:induction false} InsertSorted<T>(x: T, s: seq<T>, key: T -> int)
    requires SortedBy(s, key)
    ensures SortedBy(Insert(x, s, key), key)
  {
    if s == [] || key(x) <= key(s[0]) {
      SortedCons(x, s, key);
    } else {
      InsertSorted(x, s[1..], key);
      SortedCons(s[0], Insert(x, s[1..], key), key);
    }
  }

  lemma SortedCons<T>(a: T, t: seq<T>, key: T -> int)
    requires SortedBy(t, key)
    requires t == [] || key(a) <= key(t[0])
    ensures SortedBy([a] + t, key)
  {
    var u := [a] + t;
    forall i, j | 0 <= i < j < |u| ensures key(u[i]) <= key(u[j]) {
      if i > 0 {
        assert u[i] == t[i - 1] && u[j] == t[j - 1];
      } else if j > 1 {
        assert key(t[0]) <= key(t[j - 1]);
      }
    }
  }

  function SortBy<T>(s: seq<T>, key: T -> int): (r: seq<T>)
    ensures |r| == |s|
    ensures SortedBy(r, key)
    ensures multiset(r) == multiset(s)
  {
    if s == [] then []
    else
      assert s == [s[0]] + s[1..];
      InsertSorted(s[0], SortBy(s[1..], key), key);
      Insert(s[0], SortBy(s[1..], key), key)
  }

  lemma {:induction false} InsertWithKey<T>(x: T, s: seq<T>, key: T -> int, k: int)
    requires SortedBy(s, key)
    ensures WithKey(Insert(x, s, key), key, k) == (if key(x) == k then [x] else []) + WithKey(s, key, k)
  {
    if s == [] || key(x) <= key(s[0]) {
      assert ([x] + s)[1..] == s;
    } else {
      var rest := Insert(x, s[1..], key);
      var tail := WithKey(s[1..], key, k);
      assert ([s[0]] + rest)[1..] == rest;
      assert s == [s[0]] + s[1..];
      InsertWithKey(x, s[1..], key, k);
      if key(x) == k {
        assert key(s[0]) != k;
        assert WithKey(Insert(x, s, key), key, k) == WithKey(rest, key, k) == [x] + tail;
        assert WithKey(s, key, k) == tail;
      } else {
        assert WithKey(rest, key, k) == tail;
      }
    }
  }

  /** Sorting is stable: the elements sharing a key keep their relative order. */
  lemma {:induction false} SortIsStable<T>(s: seq<T>, key: T -> int, k: int)
    ensures WithKey(SortBy(s, key), key, k) == WithKey(s, key, k)
  {
    if s != [] {
      SortIsStable(s[1..], key, k);
      InsertWithKey(s[0], SortBy(s[1..], key), key, k);
    }
  }

  /** The last element of the sort has the largest key. */
  lemma SortByLastIsMax<T>(s: seq<T>, key: T -> int)
    requires s != []
    ensures forall x :: x in s ==> key(x) <= key(SortBy(s, key)[|s| - 1])
  {
    var sorted := SortBy(s, key);
    forall x | x in s
      ensures key(x) <= key(sorted[|s| - 1])
    {
      assert x in multiset(sorted);
      var i :| 0 <= i < |sorted| && sorted[i] == x;
      if i < |s| - 1 {
        assert key(sorted[i]) <= key(sorted[|s| - 1]);
      }
    }
  }

  /** A sequence that is already ordered comes back unchanged. */
  lemma {:induction false} SortOfSorted<T>(s: seq<T>, key: T -> int)
    requires SortedBy(s, key)
    ensures SortBy(s, key) == s
  {
    if s != [] {
      SortOfSorted(s[1..], key);
    }
  }

  /** `[x for x in s if p(x)]`, and SQL `WHERE` without `ORDER BY`: the rows
      satisfying `p`, each as often as in `s`, in their order in `s`. */
  function Filter<T(!new)>(s: seq<T>, p: T -> bool): (r: seq<T>)
    ensures |r| <= |s|
    ensures forall i :: 0 <= i < |r| ==> p(r[i])
    ensures forall x :: multiset(r)[x] == if p(x) then multiset(s)[x] else 0
  {
    if s == [] then []
    else
      assert s == [s[0]] + s[1..];
      (if p(s[0]) then [s[0]] else []) + Filter(s[1..], p)
  }

  /** `[y for x in s for y in f(x)]`: the pieces `f` gives for the elements
      of `s`, in order. */
  function ConcatMap<A, B>(s: seq<A>, f: A -> seq<B>): seq<B> {
    if s == [] then [] else ConcatMap(s[..|s| - 1], f) + f(s[|s| - 1])
  }

  /** Extending the input by one element extends the output by its piece. */
  lemma ConcatMapSnoc<A, B>(s: seq<A>, k: nat, f: A -> seq<B>)
    requires k < |s|
    ensures ConcatMap(s[..k + 1], f) == ConcatMap(s[..k], f) + f(s[k])
  {
    assert s[..k + 1][..k] == s[..k];
  }

  /** When every element gives exactly one item, the output is the items in
      the order of the input. */
  lemma {:induction false} ConcatMapSingletons<A, B>(s: seq<A>, f: A -> seq<B>)
    requires forall i :: 0 <= i < |s| ==> |f(s[i])| == 1
    ensures |ConcatMap(s, f)| == |s|
    ensures forall i :: 0 <= i < |s| ==> ConcatMap(s, f)[i] == f(s[i])[0]
  {
    if s != [] {
      var n := |s| - 1;
      var front := s[..n];
      assert forall i :: 0 <= i < n ==> front[i] == s[i];
      ConcatMapSingletons(front, f);
      var r := ConcatMap(s, f);
      assert r == ConcatMap(front, f) + f(s[n]);
      forall i | 0 <= i < |s| ensures r[i] == f(s[i])[0] {
        if i < n {
          assert r[i] == ConcatMap(front, f)[i];
        }
      }
    }
  }

  /** Concatenation regroups freely. */
  lemma AppendAssoc<T>(a: seq<T>, b: seq<T>, c: seq<T>)
    ensures (a + b) + c == a + (b + c)
  {
  }

  /** `[f(x) for x in s]`. */
  function MapSeq<A, B>(s: seq<A>, f: A -> B): (r: seq<B>)
    ensures |r| == |s| && forall i :: 0 <= i < |s| ==> r[i] == f(s[i])
  {
    if s == [] then [] else [f(s[0])] + MapSeq(s[1..], f)
  }

  lemma MapSeqAppend<A, B>(s: seq<A>, t: seq<A>, f: A -> B)
    ensures MapSeq(s + t, f) == MapSeq(s, f) + MapSeq(t, f)
  {
  }

  /** Mapping two permutations of each other gives permutations of each other. */
  lemma {:induction false} MapSeqPermutation<A, B>(a: seq<A>, b: seq<A>, f: A -> B)
    requires multiset(a) == multiset(b)
    ensures multiset(MapSeq(a, f)) == multiset(MapSeq(b, f))
    decreases |a|
  {
    if a != [] {
      var x := a[0];
      assert x in multiset(b);
      var k :| 0 <= k < |b| && b[k] == x;
      var rest := b[..k] + b[k + 1..];
      assert b == b[..k] + [x] + b[k + 1..];
      assert a == [x] + a[1..];
      forall y ensures multiset(a[1..])[y] == multiset(rest)[y] {
        assert multiset(a)[y] == multiset(b)[y];
      }
      assert multiset(a[1..]) == multiset(rest);
      MapSeqPermutation(a[1..], rest, f);
      MapSeqAppend([x], a[1..], f);
      MapSeqAppend(b[..k], b[k + 1..], f);
      MapSeqAppend(b[..k] + [x], b[k + 1..], f);
      MapSeqAppend(b[..k], [x], f);
    }
  }
}
