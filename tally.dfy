/**
 * Python's `collections.Counter` over a list of expressions, as the run driver and the
 * JSON import use it: `Counter(state).items()` yields each distinct element
 * once, in order of first occurrence, with its multiplicity.  The inverse
 * direction, writing every `(expr, count)` pair `count` times, is `Expand`.
 */
module Tally {
  /** `Counter.items()`: (element, count) pairs in first-occurrence order. */
  type Counts = seq<(string, nat)>

  function KeySet(p: Counts): set<string> {
    if p == [] then {} else {p[0].0} + KeySet(p[1..])
  }

  predicate DistinctKeys(p: Counts) {
    forall i, j :: 0 <= i < j < |p| ==> p[i].0 != p[j].0
  }

  predicate PositiveCounts(p: Counts) {
    forall i :: 0 <= i < |p| ==> p[i].1 >= 1
  }

  /** The shape every `Counter(...).items()` has. */
  predicate WellFormed(p: Counts) {
    DistinctKeys(p) && PositiveCounts(p)
  }

  /** The sum of the counts. */
  function Total(p: Counts): nat {
    if p == [] then 0 else p[0].1 + Total(p[1..])
  }

  /** `counter[x]`: the count of `x`, 0 when absent. */
  function Lookup(p: Counts, x: string): nat {
    if p == [] then 0 else (if p[0].0 == x then p[0].1 else 0) + Lookup(p[1..], x)
  }

  /** The distinct elements of `s`, Python's `set(s)`. */
  function Elements(s: seq<string>): set<string> {
    set x | x in s
  }

  /** Counting one more occurrence of `x`. */
  function Bump(p: Counts, x: string): Counts {
    if p == [] then [(x, 1)]
    else if p[0].0 == x then [(x, p[0].1 + 1)] + p[1..]
    else [p[0]] + Bump(p[1..], x)
  }

  /** Feeding the elements of `s` one by one into an existing tally. */
  function TallyFrom(acc: Counts, s: seq<string>): Counts
    decreases s
  {
    if s == [] then acc else TallyFrom(Bump(acc, s[0]), s[1..])
  }

  /** `list(Counter(s).items())`. */
  function Counter(s: seq<string>): Counts {
    TallyFrom([], s)
  }

  /** `[x] * n`. */
  function Repeat(x: string, n: nat): (r: seq<string>)
    ensures |r| == n && forall i :: 0 <= i < n ==> r[i] == x
  {
    if n == 0 then [] else Repeat(x, n - 1) + [x]
  }

  /** Every pair written `count` times, pairs in order. */
  function Expand(p: Counts): seq<string> {
    if p == [] then [] else Repeat(p[0].0, p[0].1) + Expand(p[1..])
  }

  // ------------------------------------------------------------ Bump

  lemma {:induction false} BumpKeys(p: Counts, x: string)
    ensures KeySet(Bump(p, x)) == KeySet(p) + {x}
    ensures |Bump(p, x)| == if x in KeySet(p) then |p| else |p| + 1
    ensures Total(Bump(p, x)) == Total(p) + 1
    ensures forall y :: Lookup(Bump(p, x), y) == Lookup(p, y) + (if y == x then 1 else 0)
  {
    if p != [] && p[0].0 != x {
      BumpKeys(p[1..], x);
      assert Bump(p, x)[1..] == Bump(p[1..], x);
    } else if p != [] {
      assert Bump(p, x)[1..] == p[1..];
    }
  }

  lemma {:induction false} BumpWellFormed(p: Counts, x: string)
    requires WellFormed(p)
    ensures WellFormed(Bump(p, x))
  {
    if p != [] && p[0].0 != x {
      assert WellFormed(p[1..]);
      BumpWellFormed(p[1..], x);
      BumpKeys(p[1..], x);
      var b := Bump(p, x);
      assert b[1..] == Bump(p[1..], x);
      forall j | 0 < j < |b| ensures b[0].0 != b[j].0 {
        assert b[j].0 in KeySet(b[1..]) by { InKeySet(b[1..], j - 1); }
        KeySetMembers(p);
      }
    }
  }

  lemma {:induction false} InKeySet(p: Counts, i: nat)
    requires i < |p|
    ensures p[i].0 in KeySet(p)
  {
    if i > 0 {
      InKeySet(p[1..], i - 1);
    }
  }

  /** A key of a well-formed tally occurs at exactly one position. */
  lemma {:induction false} KeySetMembers(p: Counts)
    requires DistinctKeys(p)
    ensures p != [] ==> p[0].0 !in KeySet(p[1..])
    ensures forall x :: x in KeySet(p) <==> exists i :: 0 <= i < |p| && p[i].0 == x
  {
    if p != [] {
      KeySetMembers(p[1..]);
      forall x | x in KeySet(p) ensures exists i :: 0 <= i < |p| && p[i].0 == x {
        if x != p[0].0 {
          assert x in KeySet(p[1..]);
          var i :| 0 <= i < |p[1..]| && p[1..][i].0 == x;
          assert p[i + 1].0 == x;
        }
      }
      forall x | exists i :: 0 <= i < |p| && p[i].0 == x ensures x in KeySet(p) {
        var i :| 0 <= i < |p| && p[i].0 == x;
        InKeySet(p, i);
      }
    }
  }

  lemma {:induction false} BumpExpand(p: Counts, x: string)
    ensures multiset(Expand(Bump(p, x))) == multiset(Expand(p)) + multiset{x}
  {
    if p == [] {
      assert Expand(Bump(p, x)) == Repeat(x, 1) + Expand([]);
    } else if p[0].0 == x {
      var b := Bump(p, x);
      assert b[1..] == p[1..];
      assert Repeat(x, p[0].1 + 1) == Repeat(x, p[0].1) + [x];
    } else {
      var b := Bump(p, x);
      assert b[1..] == Bump(p[1..], x);
      BumpExpand(p[1..], x);
    }
  }

  // ------------------------------------------------------------ Counter

  lemma {:induction false} TallyFromShape(acc: Counts, s: seq<string>)
    requires WellFormed(acc)
    decreases s
    ensures WellFormed(TallyFrom(acc, s))
    ensures KeySet(TallyFrom(acc, s)) == KeySet(acc) + Elements(s)
  {
    if s != [] {
      BumpWellFormed(acc, s[0]);
      BumpKeys(acc, s[0]);
      TallyFromShape(Bump(acc, s[0]), s[1..]);
      assert s == [s[0]] + s[1..];
      assert Elements(s) == {s[0]} + Elements(s[1..]);
    }
  }

  lemma {:induction false} TallyFromCounts(acc: Counts, s: seq<string>)
    decreases s
    ensures Total(TallyFrom(acc, s)) == Total(acc) + |s|
    ensures forall y :: Lookup(TallyFrom(acc, s), y) == Lookup(acc, y) + multiset(s)[y]
  {
    if s != [] {
      BumpKeys(acc, s[0]);
      TallyFromCounts(Bump(acc, s[0]), s[1..]);
      assert s == [s[0]] + s[1..];
    }
  }

  lemma {:induction false} TallyFromExpand(acc: Counts, s: seq<string>)
    decreases s
    ensures multiset(Expand(TallyFrom(acc, s))) == multiset(Expand(acc)) + multiset(s)
  {
    if s != [] {
      var bumped := Bump(acc, s[0]);
      BumpExpand(acc, s[0]);
      TallyFromExpand(bumped, s[1..]);
      assert TallyFrom(acc, s) == TallyFrom(bumped, s[1..]);
      assert multiset(s) == multiset{s[0]} + multiset(s[1..]) by {
        assert s == [s[0]] + s[1..];
      }
    }
  }

  /** `Counter(s)` lists each distinct element of `s` once, with a positive
      count equal to its multiplicity, and the counts sum to `len(s)`. */
  lemma CounterFacts(s: seq<string>)
    ensures WellFormed(Counter(s))
    ensures KeySet(Counter(s)) == Elements(s)
    ensures Total(Counter(s)) == |s|
    ensures forall y :: Lookup(Counter(s), y) == multiset(s)[y]
    ensures multiset(Expand(Counter(s))) == multiset(s)
  {
    TallyFromShape([], s);
    TallyFromCounts([], s);
    TallyFromExpand([], s);
  }

  lemma {:induction false} DistinctLength(p: Counts)
    requires DistinctKeys(p)
    ensures |KeySet(p)| == |p|
  {
    if p != [] {
      KeySetMembers(p);
      assert DistinctKeys(p[1..]);
      DistinctLength(p[1..]);
    }
  }

  /** The number of rows `Counter(s)` yields is `len(set(s))`. */
  lemma CounterLength(s: seq<string>)
    ensures |Counter(s)| == |Elements(s)|
  {
    CounterFacts(s);
    DistinctLength(Counter(s));
  }

  lemma {:induction false} LookupAbsent(p: Counts, x: string)
    requires x !in KeySet(p)
    ensures Lookup(p, x) == 0
  {
    if p != [] {
      LookupAbsent(p[1..], x);
    }
  }

  lemma {:induction false} LookupAt(p: Counts, i: nat)
    requires DistinctKeys(p) && i < |p|
    ensures Lookup(p, p[i].0) == p[i].1
  {
    KeySetMembers(p);
    assert DistinctKeys(p[1..]);
    if i == 0 {
      LookupAbsent(p[1..], p[0].0);
    } else {
      LookupAt(p[1..], i - 1);
    }
  }

  /** Each pair `(x, n)` of `Counter(s).items()` has `n` equal to the number of
      occurrences of `x` in `s`, and `x` does occur. */
  lemma CounterItem(s: seq<string>, i: nat)
    requires i < |Counter(s)|
    ensures Counter(s)[i].1 == multiset(s)[Counter(s)[i].0] >= 1
    ensures Counter(s)[i].0 in s
  {
    CounterFacts(s);
    LookupAt(Counter(s), i);
    InKeySet(Counter(s), i);
  }

  // ------------------------------------------------------------ round trip

  lemma {:induction false} TallyFromAppend(acc: Counts, s: seq<string>, t: seq<string>)
    ensures TallyFrom(acc, s + t) == TallyFrom(TallyFrom(acc, s), t)
    decreases s
  {
    if s != [] {
      assert (s + t)[0] == s[0] && (s + t)[1..] == s[1..] + t;
      TallyFromAppend(Bump(acc, s[0]), s[1..], t);
    } else {
      assert s + t == t;
    }
  }

  lemma {:induction false} BumpLast(acc: Counts, x: string, n: nat)
    requires x !in KeySet(acc)
    ensures Bump(acc + [(x, n)], x) == acc + [(x, n + 1)]
    ensures Bump(acc, x) == acc + [(x, 1)]
  {
    if acc != [] {
      assert (acc + [(x, n)])[1..] == acc[1..] + [(x, n)];
      BumpLast(acc[1..], x, n);
    }
  }

  lemma {:induction false} TallyRepeat(acc: Counts, x: string, n: nat)
    requires x !in KeySet(acc) && n >= 1
    ensures TallyFrom(acc, Repeat(x, n)) == acc + [(x, n)]
  {
    if n == 1 {
      BumpLast(acc, x, 0);
      assert Repeat(x, 1) == [x];
    } else {
      TallyRepeat(acc, x, n - 1);
      TallyFromAppend(acc, Repeat(x, n - 1), [x]);
      BumpLast(acc, x, n - 1);
    }
  }

  lemma {:induction false} KeySetAppend(p: Counts, q: Counts)
    ensures KeySet(p + q) == KeySet(p) + KeySet(q)
  {
    if p != [] {
      assert (p + q)[1..] == p[1..] + q;
      KeySetAppend(p[1..], q);
    } else {
      assert p + q == q;
    }
  }

  lemma {:induction false} TallyExpand(acc: Counts, p: Counts)
    requires WellFormed(p) && KeySet(acc) !! KeySet(p)
    ensures TallyFrom(acc, Expand(p)) == acc + p
    decreases p
  {
    if p == [] {
      assert acc + p == acc;
    } else {
      var x := p[0].0;
      assert WellFormed(p[1..]);
      KeySetMembers(p);
      TallyFromAppend(acc, Repeat(x, p[0].1), Expand(p[1..]));
      TallyRepeat(acc, x, p[0].1);
      KeySetAppend(acc, [p[0]]);
      assert KeySet([p[0]]) == {x};
      TallyExpand(acc + [p[0]], p[1..]);
      assert acc + [p[0]] + p[1..] == acc + p;
    }
  }

  /** Re-aggregating the expanded rows gives back the same pairs, in the
      same order: `Counter(expand(p)).items() == p` for every well-formed `p`. */
  lemma CounterOfExpand(p: Counts)
    requires WellFormed(p)
    ensures Counter(Expand(p)) == p
  {
    TallyExpand([], p);
    assert [] + p == p;
  }

  /** The expansion has `Total(p)` elements, `sum(counts)` lines. */
  lemma {:induction false} ExpandLength(p: Counts)
    ensures |Expand(p)| == Total(p)
  {
    if p != [] {
      ExpandLength(p[1..]);
    }
  }

  /** Expanding a concatenation expands each part in turn. */
  lemma {:induction false} ExpandAppend(p: Counts, q: Counts)
    ensures Expand(p + q) == Expand(p) + Expand(q)
  {
    if p != [] {
      assert (p + q)[0] == p[0] && (p + q)[1..] == p[1..] + q;
      ExpandAppend(p[1..], q);
    } else {
      assert p + q == q;
    }
  }
}
