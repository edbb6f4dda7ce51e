/** Sequence and table helpers shared by the store's queries: a table scan in
    row-id order, filtering (`WHERE`), ordering (`ORDER BY`), counting and
    summing, with the facts the queries' contracts are built from. */
module Listing {

  /** `s` is in non-decreasing order of `key`. */
  predicate SortedBy<T>(s: seq<T>, key: T -> int) {
    forall i, j :: 0 <= i < j < |s| ==> key(s[i]) <= key(s[j])
  }

  /** No element occurs twice in `s`. */
  predicate NoDup<T(==)>(s: seq<T>) {
    forall i, j :: 0 <= i < j < |s| ==> s[i] != s[j]
  }

  /** Distinct keys of `m` hold distinct values. */
  ghost predicate Injective<V>(m: map<int, V>) {
    forall a, b :: a in m && b in m && a != b ==> m[a] != m[b]
  }

  /** `r` lists, each once, exactly the values of `m` that satisfy `p`. */
  ghost predicate Enumerates<V>(m: map<int, V>, r: seq<V>, p: V -> bool) {
    && (forall i :: 0 <= i < |r| ==> r[i] in m.Values && p(r[i]))
    && (forall k :: k in m && p(m[k]) ==> m[k] in r)
    && NoDup(r)
  }

  /** The values stored under keys 1 .. hi-1 of `m`, in ascending key order:
      the order in which a table keyed by row id is scanned. */
  function Rows<V>(m: map<int, V>, hi: int): (r: seq<V>)
    ensures |r| <= if hi <= 1 then 0 else hi - 1
    ensures forall k :: k in m && 1 <= k < hi ==> m[k] in r
    decreases hi
  {
    if hi <= 1 then []
    else Rows(m, hi - 1) + (if hi - 1 in m then [m[hi - 1]] else [])
  }

  /** Every scanned row is stored under a key in the scanned range. */
  lemma {:induction false} RowKey<V>(m: map<int, V>, hi: int, i: int)
    requires 0 <= i < |Rows(m, hi)|
    ensures exists k :: 1 <= k < hi && k in m && m[k] == Rows(m, hi)[i]
    decreases hi
  {
    if hi > 1 {
      var prev := Rows(m, hi - 1);
      if i < |prev| {
        RowKey(m, hi - 1, i);
        var k :| 1 <= k < hi - 1 && k in m && m[k] == prev[i];
      } else {
        assert 1 <= hi - 1 < hi && hi - 1 in m && m[hi - 1] == Rows(m, hi)[i];
      }
    }
  }

  /** The rows satisfying `p`, in their original order. */
  function Filter<T>(s: seq<T>, p: T -> bool): (r: seq<T>)
    ensures |r| <= |s|
    ensures forall i :: 0 <= i < |r| ==> p(r[i]) && r[i] in s
    ensures forall i :: 0 <= i < |s| && p(s[i]) ==> s[i] in r
  {
    if s == [] then []
    else if p(s[0]) then [s[0]] + Filter(s[1..], p)
    else Filter(s[1..], p)
  }

  /** `s` in ascending order of `key`, by insertion. */
  function SortBy<T(==)>(s: seq<T>, key: T -> int): (r: seq<T>)
    ensures SortedBy(r, key)
    ensures multiset(r) == multiset(s)
  {
    if s == [] then []
    else
      assert s == [s[0]] + s[1..];
      Insert(s[0], SortBy(s[1..], key), key)
  }

  function Insert<T(==)>(x: T, s: seq<T>, key: T -> int): (r: seq<T>)
    requires SortedBy(s, key)
    ensures SortedBy(r, key)
    ensures multiset(r) == multiset(s) + multiset{x}
    ensures |r| == |s| + 1 && (r[0] == x || (s != [] && r[0] == s[0]))
    decreases |s|
  {
    if s == [] || key(x) <= key(s[0]) then [x] + s
    else
      assert s == [s[0]] + s[1..];
      [s[0]] + Insert(x, s[1..], key)
  }

  /** The sum of `f` over the elements of `s`. */
  function SumBy<T>(s: seq<T>, f: T -> int): int {
    if s == [] then 0 else f(s[0]) + SumBy(s[1..], f)
  }

  lemma {:induction false} FilterConcat<T>(a: seq<T>, b: seq<T>, p: T -> bool)
    ensures Filter(a + b, p) == Filter(a, p) + Filter(b, p)
    decreases |a|
  {
    if a == [] {
      assert a + b == b;
    } else {
      assert (a + b)[1..] == a[1..] + b;
      FilterConcat(a[1..], b, p);
    }
  }

  /** Filtering keeps every element's multiplicity when it passes, and drops it otherwise. */
  lemma {:induction false} FilterMultiplicity<T>(s: seq<T>, p: T -> bool, y: T)
    ensures multiset(Filter(s, p))[y] == if p(y) then multiset(s)[y] else 0
    decreases |s|
  {
    if s != [] {
      assert s == [s[0]] + s[1..];
      FilterMultiplicity(s[1..], p, y);
    }
  }

  /** Filtering two permutations of each other gives permutations of each other. */
  lemma FilterPermutation<T>(a: seq<T>, b: seq<T>, p: T -> bool)
    requires multiset(a) == multiset(b)
    ensures multiset(Filter(a, p)) == multiset(Filter(b, p))
  {
    forall y
      ensures multiset(Filter(a, p))[y] == multiset(Filter(b, p))[y]
    {
      FilterMultiplicity(a, p, y);
      FilterMultiplicity(b, p, y);
    }
  }

  /** A sum does not depend on the order in which the elements are listed. */
  lemma {:induction false} SumByPermutation<T>(a: seq<T>, b: seq<T>, f: T -> int)
    requires multiset(a) == multiset(b)
    ensures SumBy(a, f) == SumBy(b, f)
    decreases |a|
  {
    if a == [] {
      assert |b| == |multiset(b)| == 0;
    } else {
      var x := a[0];
      assert x in multiset(b);
      var i :| 0 <= i < |b| && b[i] == x;
      var rest := b[..i] + b[i + 1..];
      MultisetRemove(b, i);
      assert a == [x] + a[1..];
      forall y
        ensures multiset(a[1..])[y] == multiset(rest)[y]
      {
        assert multiset(a)[y] == multiset(a[1..])[y] + multiset{x}[y];
        assert multiset(b)[y] == multiset(rest)[y] + multiset{x}[y];
      }
      SumByPermutation(a[1..], rest, f);
      SumByRemove(b, i, f);
    }
  }

  lemma MultisetRemove<T>(b: seq<T>, i: int)
    requires 0 <= i < |b|
    ensures multiset(b) == multiset(b[..i] + b[i + 1..]) + multiset{b[i]}
  {
    assert b == b[..i] + [b[i]] + b[i + 1..];
  }

  lemma {:induction false} SumByRemove<T>(b: seq<T>, i: int, f: T -> int)
    requires 0 <= i < |b|
    ensures SumBy(b, f) == f(b[i]) + SumBy(b[..i] + b[i + 1..], f)
    decreases i
  {
    if i == 0 {
      assert b[..0] + b[1..] == b[1..];
    } else {
      var tail := b[1..];
      SumByRemove(tail, i - 1, f);
      assert b[..i] + b[i + 1..] == [b[0]] + (tail[..i - 1] + tail[i..]);
    }
  }

  /** Two predicates no element satisfies together select at most `|s|` elements between them. */
  lemma {:induction false} FilterDisjoint<T>(s: seq<T>, p: T -> bool, q: T -> bool)
    requires forall y :: !(p(y) && q(y))
    ensures |Filter(s, p)| + |Filter(s, q)| <= |s|
    decreases |s|
  {
    if s != [] {
      FilterDisjoint(s[1..], p, q);
    }
  }

  /** Filtering twice is filtering once by the conjunction. */
  lemma {:induction false} FilterFilter<T>(s: seq<T>, p: T -> bool, q: T -> bool, pq: T -> bool)
    requires forall y :: pq(y) == (p(y) && q(y))
    ensures Filter(Filter(s, p), q) == Filter(s, pq)
    decreases |s|
  {
    if s != [] {
      FilterFilter(s[1..], p, q, pq);
      if p(s[0]) {
        assert Filter(s, p) == [s[0]] + Filter(s[1..], p);
        assert Filter(s, p)[1..] == Filter(s[1..], p);
      }
    }
  }

  /** A scan of an injective table repeats no row. */
  lemma {:induction false} RowsNoDup<V>(m: map<int, V>, hi: int)
    requires Injective(m)
    ensures NoDup(Rows(m, hi))
    decreases hi
  {
    if hi > 1 {
      RowsNoDup(m, hi - 1);
      var prev := Rows(m, hi - 1);
      if hi - 1 in m {
        forall i | 0 <= i < |prev|
          ensures prev[i] != m[hi - 1]
        {
          RowKey(m, hi - 1, i);
          var k :| 1 <= k < hi - 1 && k in m && m[k] == prev[i];
        }
      }
    }
  }

  lemma {:induction false} FilterNoDup<T>(s: seq<T>, p: T -> bool)
    requires NoDup(s)
    ensures NoDup(Filter(s, p))
    decreases |s|
  {
    if s != [] {
      assert NoDup(s[1..]);
      FilterNoDup(s[1..], p);
      if p(s[0]) {
        assert s[0] !in s[1..];
      }
    }
  }

  lemma PermutationNoDup<T>(a: seq<T>, b: seq<T>)
    requires multiset(a) == multiset(b)
    requires NoDup(a)
    ensures NoDup(b)
  {
    forall i, j | 0 <= i < j < |b|
      ensures b[i] != b[j]
    {
      if b[i] == b[j] {
        assert b == b[..j] + [b[j]] + b[j + 1..];
        assert b[i] in b[..j];
        assert multiset(b)[b[i]] >= 2;
        MultiplicityAtMostOne(a, b[i]);
        assert false;
      }
    }
  }

  lemma {:induction false} MultiplicityAtMostOne<T>(s: seq<T>, y: T)
    requires NoDup(s)
    ensures multiset(s)[y] <= 1
    decreases |s|
  {
    if s != [] {
      assert s == [s[0]] + s[1..];
      assert NoDup(s[1..]);
      MultiplicityAtMostOne(s[1..], y);
      if s[0] == y {
        assert y !in s[1..];
      }
    }
  }

  /** Scan, filter and order an injective table whose keys are all below `hi`:
      the result lists each row satisfying `p` once, in ascending `key`. */
  function Select<V(==)>(m: map<int, V>, hi: int, p: V -> bool, key: V -> int): (r: seq<V>)
    ensures SortedBy(r, key)
    ensures forall i :: 0 <= i < |r| ==> r[i] in m.Values && p(r[i])
    ensures (forall k :: k in m ==> 1 <= k < hi) ==> forall k :: k in m && p(m[k]) ==> m[k] in r
    ensures Injective(m) ==> NoDup(r)
  {
    SelectFacts(m, hi, p, key);
    SortBy(Filter(Rows(m, hi), p), key)
  }

  lemma SelectFacts<V>(m: map<int, V>, hi: int, p: V -> bool, key: V -> int)
    ensures forall i :: 0 <= i < |SortBy(Filter(Rows(m, hi), p), key)| ==>
      SortBy(Filter(Rows(m, hi), p), key)[i] in m.Values && p(SortBy(Filter(Rows(m, hi), p), key)[i])
    ensures (forall k :: k in m ==> 1 <= k < hi) ==>
      forall k :: k in m && p(m[k]) ==> m[k] in SortBy(Filter(Rows(m, hi), p), key)
    ensures Injective(m) ==> NoDup(SortBy(Filter(Rows(m, hi), p), key))
  {
    var rows := Rows(m, hi);
    var selected := Filter(rows, p);
    var r := SortBy(selected, key);
    forall i | 0 <= i < |rows|
      ensures rows[i] in m.Values
    {
      RowKey(m, hi, i);
    }
    PermutationMembers(selected, r);
    PermutationMembers(r, selected);
    if Injective(m) {
      RowsNoDup(m, hi);
      FilterNoDup(rows, p);
      PermutationNoDup(selected, r);
    }
  }

  /** Every element of `b` occurs in any permutation `a` of it. */
  lemma PermutationMembers<T>(a: seq<T>, b: seq<T>)
    requires multiset(a) == multiset(b)
    ensures forall i :: 0 <= i < |b| ==> b[i] in a
  {
    forall i | 0 <= i < |b|
      ensures b[i] in a
    {
      assert b[i] in multiset(b);
    }
  }

  /** The keys in [1, hi) whose row satisfies `p`. */
  ghost function KeysWhere<V>(m: map<int, V>, hi: int, p: V -> bool): set<int> {
    set k | k in m && p(m[k]) && 1 <= k < hi
  }

  /** A count over a scan equals the number of keys whose row satisfies `p`. */
  lemma {:induction false} RowsCount<V>(m: map<int, V>, hi: int, p: V -> bool)
    ensures |Filter(Rows(m, hi), p)| == |KeysWhere(m, hi, p)|
    decreases hi
  {
    if hi <= 1 {
      assert KeysWhere(m, hi, p) == {};
    } else {
      RowsCount(m, hi - 1, p);
      RowsCountStep(m, hi, p);
      KeySetStep(m, hi, p);
    }
  }

  lemma RowsCountStep<V>(m: map<int, V>, hi: int, p: V -> bool)
    requires hi > 1
    ensures |Filter(Rows(m, hi), p)|
         == |Filter(Rows(m, hi - 1), p)| + (if hi - 1 in m && p(m[hi - 1]) then 1 else 0)
  {
    var last := if hi - 1 in m then [m[hi - 1]] else [];
    assert Rows(m, hi) == Rows(m, hi - 1) + last;
    FilterConcat(Rows(m, hi - 1), last, p);
    if hi - 1 in m {
      assert last[1..] == [];
    }
  }

  lemma KeySetStep<V>(m: map<int, V>, hi: int, p: V -> bool)
    requires hi > 1
    ensures |KeysWhere(m, hi, p)| == |KeysWhere(m, hi - 1, p)| + (if hi - 1 in m && p(m[hi - 1]) then 1 else 0)
  {
    var ks := KeysWhere(m, hi, p);
    var prev := KeysWhere(m, hi - 1, p);
    if hi - 1 in m && p(m[hi - 1]) {
      assert ks == prev + {hi - 1};
    } else {
      assert ks == prev;
    }
  }
}
