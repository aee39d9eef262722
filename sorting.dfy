/** Python's stable sort, `sorted(s, key=..., reverse=...)` and
    `list.sort(key=...)`, as insertion sort: each element, taken in input
    order, goes after every element already placed that it does not
    strictly precede. `prec(a, b)` says that `a` must come before `b`
    (for `reverse=True` on a numeric key, `key(a) > key(b)`); elements
    neither of which precedes the other are ties and keep their input
    order. */
module Sorting {
  import opened Seqs

  /** A strict weak order: the orders a sort key induces. */
  ghost predicate StrictWeakOrder<T(!new)>(prec: (T, T) -> bool) {
    && (forall a :: !prec(a, a))
    && (forall a, b, c :: prec(a, b) && prec(b, c) ==> prec(a, c))
    && (forall a, b, c :: prec(a, b) ==> prec(a, c) || prec(c, b))
  }

  /** Neither element precedes the other: equal keys. */
  predicate Tied<T>(prec: (T, T) -> bool, a: T, b: T) {
    !prec(a, b) && !prec(b, a)
  }

  /** No element precedes one placed before it. */
  predicate SortedBy<T>(s: seq<T>, prec: (T, T) -> bool) {
    forall i, j :: 0 <= i < j < |s| ==> !prec(s[j], s[i])
  }

  /** Where `x` goes: after the longest prefix it does not precede. */
  function InsertPos<T>(x: T, s: seq<T>, prec: (T, T) -> bool): (k: nat)
    ensures k <= |s|
    ensures forall i :: 0 <= i < k ==> !prec(x, s[i])
    ensures k < |s| ==> prec(x, s[k])
  {
    if s == [] || prec(x, s[0]) then 0 else 1 + InsertPos(x, s[1..], prec)
  }

  function Insert<T>(x: T, s: seq<T>, prec: (T, T) -> bool): (r: seq<T>)
    ensures |r| == |s| + 1
  {
    var k := InsertPos(x, s, prec);
    s[..k] + [x] + s[k..]
  }

  /** The stable sort. */
  function SortBy<T>(s: seq<T>, prec: (T, T) -> bool): (r: seq<T>)
    ensures |r| == |s|
  {
    if s == [] then [] else Insert(s[|s| - 1], SortBy(s[..|s| - 1], prec), prec)
  }

  /** The sort returns a permutation of its input. */
  lemma {:induction false} SortByPermutation<T>(s: seq<T>, prec: (T, T) -> bool)
    ensures multiset(SortBy(s, prec)) == multiset(s)
  {
    if s != [] {
      var init, x := s[..|s| - 1], s[|s| - 1];
      SortByPermutation(init, prec);
      var r := SortBy(init, prec);
      var k := InsertPos(x, r, prec);
      assert r == r[..k] + r[k..];
      assert s == init + [x];
    }
  }

  /** Inserting into a sorted sequence keeps it sorted. */
  lemma {:induction false} InsertSorted<T(!new)>(x: T, s: seq<T>, prec: (T, T) -> bool)
    requires StrictWeakOrder(prec) && SortedBy(s, prec)
    ensures SortedBy(Insert(x, s, prec), prec)
  {
    var k := InsertPos(x, s, prec);
    var r := Insert(x, s, prec);
    AfterInsertPos(x, s, prec);
    forall i, j | 0 <= i < j < |r| ensures !prec(r[j], r[i]) {
      var si := if i < k then s[i] else if i == k then x else s[i - 1];
      var sj := if j < k then s[j] else if j == k then x else s[j - 1];
      assert r[i] == si && r[j] == sj;
      if i == k {
        assert prec(x, sj);
      }
    }
  }

  /** Past its position, `x` precedes every element of a sorted sequence. */
  lemma AfterInsertPos<T(!new)>(x: T, s: seq<T>, prec: (T, T) -> bool)
    requires StrictWeakOrder(prec) && SortedBy(s, prec)
    ensures forall i :: InsertPos(x, s, prec) <= i < |s| ==> prec(x, s[i])
  {
    var k := InsertPos(x, s, prec);
    forall i | k <= i < |s| ensures prec(x, s[i]) {
      if i > k {
        assert !prec(s[i], s[k]);
      }
    }
  }

  /** What `x` precedes is not tied with anything tied with `x`. */
  lemma TieBlocked<T(!new)>(prec: (T, T) -> bool, x: T, y: T, v: T)
    requires StrictWeakOrder(prec) && Tied(prec, x, v) && prec(x, y)
    ensures !Tied(prec, y, v)
  {
    assert prec(x, v) || prec(v, y);
  }

  /** The sort's output is in order. */
  lemma {:induction false} SortBySorted<T(!new)>(s: seq<T>, prec: (T, T) -> bool)
    requires StrictWeakOrder(prec)
    ensures SortedBy(SortBy(s, prec), prec)
  {
    if s != [] {
      SortBySorted(s[..|s| - 1], prec);
      InsertSorted(s[|s| - 1], SortBy(s[..|s| - 1], prec), prec);
    }
  }

  lemma {:induction false} FilterNone<T>(s: seq<T>, p: T -> bool)
    requires forall i :: 0 <= i < |s| ==> !p(s[i])
    ensures Filter(s, p) == []
  {
    if s != [] {
      FilterNone(s[..|s| - 1], p);
    }
  }

  /** Inserting `x` adds it behind every element tied with it. */
  lemma {:induction false} InsertStable<T(!new)>(x: T, s: seq<T>, prec: (T, T) -> bool, v: T)
    requires StrictWeakOrder(prec) && SortedBy(s, prec)
    ensures Filter(Insert(x, s, prec), y => Tied(prec, y, v))
         == Filter(s, y => Tied(prec, y, v)) + (if Tied(prec, x, v) then [x] else [])
  {
    var k := InsertPos(x, s, prec);
    if Tied(prec, x, v) {
      TiesNotAfter(x, s, prec, v);
    }
    FilterInsert(x, s, k, y => Tied(prec, y, v));
  }

  /** Filtering a sequence with one element put in at `k`, when no element
      from `k` on passes if `x` does: `x` comes out last. */
  lemma {:induction false} FilterInsert<T>(x: T, s: seq<T>, k: nat, p: T -> bool)
    requires k <= |s|
    requires p(x) ==> Filter(s[k..], p) == []
    ensures Filter(s[..k] + [x] + s[k..], p) == Filter(s, p) + (if p(x) then [x] else [])
  {
    var lo, hi := s[..k], s[k..];
    assert s == lo + hi;
    FilterAppend(lo + [x], hi, p);
    FilterAppend(lo, [x], p);
    FilterAppend(lo, hi, p);
    assert [x][..0] == [];
  }

  /** Nothing tied with `x` sits past the place where `x` goes. */
  lemma TiesNotAfter<T(!new)>(x: T, s: seq<T>, prec: (T, T) -> bool, v: T)
    requires StrictWeakOrder(prec) && SortedBy(s, prec) && Tied(prec, x, v)
    ensures Filter(s[InsertPos(x, s, prec)..], y => Tied(prec, y, v)) == []
  {
    var k := InsertPos(x, s, prec);
    var hi := s[k..];
    AfterInsertPos(x, s, prec);
    forall i | 0 <= i < |hi| ensures !Tied(prec, hi[i], v) {
      assert hi[i] == s[k + i];
      TieBlocked(prec, x, hi[i], v);
    }
    FilterNone(hi, y => Tied(prec, y, v));
  }

  /** Stability: for every key, the elements with that key come out in
      the order they went in. */
  lemma {:induction false} SortByStable<T(!new)>(s: seq<T>, prec: (T, T) -> bool, v: T)
    requires StrictWeakOrder(prec)
    ensures Filter(SortBy(s, prec), y => Tied(prec, y, v)) == Filter(s, y => Tied(prec, y, v))
  {
    if s != [] {
      var init := s[..|s| - 1];
      SortByStable(init, prec, v);
      SortBySorted(init, prec);
      InsertStable(s[|s| - 1], SortBy(init, prec), prec, v);
    }
  }

  /** The first `m` elements of the sorted sequence are in order, come from
      the input, and none of the elements left out precedes one of them. */
  lemma {:induction false} SortedPrefix<T(!new)>(s: seq<T>, prec: (T, T) -> bool, m: nat)
    requires StrictWeakOrder(prec) && m <= |s|
    ensures SortedBy(SortBy(s, prec)[..m], prec)
    ensures forall x :: x in SortBy(s, prec)[..m] ==> x in s
    ensures forall x, y :: x in s && x !in SortBy(s, prec)[..m] && y in SortBy(s, prec)[..m] ==> !prec(x, y)
  {
    var sorted := SortBy(s, prec);
    var r := sorted[..m];
    SortBySorted(s, prec);
    SortByPermutation(s, prec);
    forall x | x in r ensures x in s {
      assert x in multiset(sorted);
    }
    forall x, y | x in s && x !in r && y in r ensures !prec(x, y) {
      assert x in multiset(sorted);
      var k :| 0 <= k < |sorted| && sorted[k] == x;
      var l :| 0 <= l < m && r[l] == y;
      assert sorted[l] == y;
    }
  }

  /** No two elements share a key. */
  predicate UniqueBy<T, K(==)>(s: seq<T>, key: T -> K) {
    forall i, j :: 0 <= i < j < |s| ==> key(s[i]) != key(s[j])
  }

  /** Reordering keeps keys unique. */
  lemma {:induction false} PermutationUnique<T, K>(a: seq<T>, b: seq<T>, key: T -> K)
    requires multiset(a) == multiset(b) && UniqueBy(a, key)
    ensures UniqueBy(b, key)
  {
    forall i, j | 0 <= i < j < |b| ensures key(b[i]) != key(b[j]) {
      assert b[i] in multiset(a) && b[j] in multiset(a);
      var k :| 0 <= k < |a| && a[k] == b[i];
      var l :| 0 <= l < |a| && a[l] == b[j];
      if k == l {
        assert multiset(b)[b[i]] >= 2 by {
          assert b == b[..i] + [b[i]] + b[i + 1..j] + [b[j]] + b[j + 1..];
        }
        UniqueCount(a, k, key);
        assert false;
      }
    }
  }

  /** With unique keys, each element occurs once. */
  lemma {:induction false} UniqueCount<T, K>(a: seq<T>, k: nat, key: T -> K)
    requires k < |a| && UniqueBy(a, key)
    ensures multiset(a)[a[k]] == 1
  {
    var x := a[k];
    assert a == a[..k] + [x] + a[k + 1..];
    assert x !in a[..k] by {
      forall m | 0 <= m < k ensures a[m] != x {
        assert key(a[m]) != key(a[k]);
      }
    }
    assert x !in a[k + 1..] by {
      forall m | k + 1 <= m < |a| ensures a[m] != x {
        assert key(a[m]) != key(a[k]);
      }
    }
  }
}
