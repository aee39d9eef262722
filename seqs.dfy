/** Generic sequence vocabulary shared by the reports: Python's list
    comprehension with a condition, `sum(...)` over a generator, "the
    output is the input with some items left out", and membership counts. */
module Seqs {
  import opened Wrappers

  /** `[x for x in s if p(x)]`. */
  function Filter<T>(s: seq<T>, p: T -> bool): (r: seq<T>)
    ensures |r| <= |s|
  {
    if s == [] then []
    else Filter(s[..|s| - 1], p) + (if p(s[|s| - 1]) then [s[|s| - 1]] else [])
  }

  /** `sum(f(x) for x in s)`. */
  function Sum<T>(s: seq<T>, f: T -> int): int {
    if s == [] then 0 else Sum(s[..|s| - 1], f) + f(s[|s| - 1])
  }

  /** `a` is `b` with some elements deleted, the rest in their order. */
  predicate IsSubsequence<T(==)>(a: seq<T>, b: seq<T>)
    decreases |b|
  {
    if b == [] then a == []
    else
      IsSubsequence(a, b[..|b| - 1])
      || (a != [] && a[|a| - 1] == b[|b| - 1] && IsSubsequence(a[..|a| - 1], b[..|b| - 1]))
  }

  lemma {:induction false} SubsequenceRefl<T>(s: seq<T>)
    ensures IsSubsequence(s, s)
  {
    if s != [] {
      SubsequenceRefl(s[..|s| - 1]);
    }
  }

  /** Filtering keeps the order of what it keeps. */
  lemma {:induction false} FilterSubsequence<T>(s: seq<T>, p: T -> bool)
    ensures IsSubsequence(Filter(s, p), s)
  {
    if s != [] {
      var init := s[..|s| - 1];
      FilterSubsequence(init, p);
      var r := Filter(s, p);
      if p(s[|s| - 1]) {
        assert r[..|r| - 1] == Filter(init, p);
      } else {
        assert r == Filter(init, p);
      }
    }
  }

  /** Filtering keeps every element that passes as often as it occurs, and
      no other element. */
  lemma {:induction false} FilterCount<T>(s: seq<T>, p: T -> bool, x: T)
    ensures multiset(Filter(s, p))[x] == if p(x) then multiset(s)[x] else 0
  {
    if s != [] {
      var init, last := s[..|s| - 1], s[|s| - 1];
      FilterCount(init, p, x);
      assert s == init + [last];
      assert multiset(s) == multiset(init) + multiset{last};
      if p(last) {
        assert multiset(Filter(s, p)) == multiset(Filter(init, p)) + multiset{last};
      } else {
        assert Filter(s, p) == Filter(init, p);
      }
    }
  }

  lemma {:induction false} FilterMembers<T>(s: seq<T>, p: T -> bool, x: T)
    ensures x in Filter(s, p) <==> x in s && p(x)
  {
    FilterCount(s, p, x);
    assert x in Filter(s, p) <==> x in multiset(Filter(s, p));
    assert x in s <==> x in multiset(s);
  }

  /** Everything that is kept passes. */
  lemma {:induction false} FilterAll<T>(s: seq<T>, p: T -> bool)
    ensures forall i :: 0 <= i < |Filter(s, p)| ==> p(Filter(s, p)[i])
  {
    if s != [] {
      FilterAll(s[..|s| - 1], p);
    }
  }

  /** A filter that keeps everything is the identity. */
  lemma {:induction false} FilterTrue<T>(s: seq<T>, p: T -> bool)
    requires forall i :: 0 <= i < |s| ==> p(s[i])
    ensures Filter(s, p) == s
  {
    if s != [] {
      FilterTrue(s[..|s| - 1], p);
    }
  }

  lemma {:induction false} FilterAppend<T>(a: seq<T>, b: seq<T>, p: T -> bool)
    ensures Filter(a + b, p) == Filter(a, p) + Filter(b, p)
  {
    if b == [] {
      assert a + b == a;
    } else {
      assert (a + b)[..|a + b| - 1] == a + b[..|b| - 1];
      FilterAppend(a, b[..|b| - 1], p);
    }
  }

  lemma {:induction false} SumAppend<T>(a: seq<T>, b: seq<T>, f: T -> int)
    ensures Sum(a + b, f) == Sum(a, f) + Sum(b, f)
  {
    if b == [] {
      assert a + b == a;
    } else {
      assert (a + b)[..|a + b| - 1] == a + b[..|b| - 1];
      SumAppend(a, b[..|b| - 1], f);
    }
  }

  /** Summing the kept and the dropped parts separately gives the whole. */
  lemma {:induction false} SumSplit<T>(s: seq<T>, p: T -> bool, f: T -> int)
    ensures Sum(s, f) == Sum(Filter(s, p), f) + Sum(Filter(s, x => !p(x)), f)
  {
    if s != [] {
      var init, last := s[..|s| - 1], s[|s| - 1];
      SumSplit(init, p, f);
      SumAppend(Filter(init, p), if p(last) then [last] else [], f);
      SumAppend(Filter(init, x => !p(x)), if !p(last) then [last] else [], f);
    }
  }

  lemma {:induction false} SumOne<T>(x: T, f: T -> int)
    ensures Sum([x], f) == f(x)
  {
    assert [x][..0] == [];
  }

  lemma {:induction false} SumPair<T>(a: T, b: T, f: T -> int)
    ensures Sum([a, b], f) == f(a) + f(b)
  {
    assert [a, b][..1] == [a];
    SumOne(a, f);
  }

  lemma {:induction false} FilterPair<T>(a: T, b: T, p: T -> bool)
    ensures Filter([a, b], p) == (if p(a) then [a] else []) + (if p(b) then [b] else [])
  {
    assert [a, b][..1] == [a];
    assert [a][..0] == [];
  }

  /** `for x in s: out.append(f(x))` where `f` may raise: the results of
      the elements before the first one on which `f` fails. */
  function MapWhile<A, B>(s: seq<A>, f: A -> Option<B>): seq<B> {
    if s == [] then []
    else match f(s[0])
      case None => []
      case Some(b) => [b] + MapWhile(s[1..], f)
  }

  /** `f` succeeds on every element. */
  predicate AllSome<A, B>(s: seq<A>, f: A -> Option<B>) {
    forall k :: 0 <= k < |s| ==> f(s[k]).Some?
  }

  /** After a run of successes the loop goes on with the rest. */
  lemma {:induction false} MapWhileAppend<A, B>(pre: seq<A>, post: seq<A>, f: A -> Option<B>)
    requires AllSome(pre, f)
    ensures MapWhile(pre + post, f) == MapWhile(pre, f) + MapWhile(post, f)
  {
    if pre == [] {
      assert pre + post == post;
    } else {
      var rest := pre[1..];
      assert (pre + post)[1..] == rest + post;
      assert (pre + post)[0] == pre[0];
      AllSomeTail(pre, f);
      var b := f(pre[0]).value;
      MapWhileAppend(rest, post, f);
      assert MapWhile(pre + post, f) == [b] + MapWhile(rest + post, f);
      assert MapWhile(pre, f) == [b] + MapWhile(rest, f);
    }
  }

  lemma {:induction false} AllSomeTail<A, B>(s: seq<A>, f: A -> Option<B>)
    requires s != [] && AllSome(s, f)
    ensures f(s[0]).Some? && AllSome(s[1..], f)
  {
    forall k | 0 <= k < |s| - 1 ensures f(s[1..][k]).Some? {
      assert s[1..][k] == s[k + 1];
    }
  }

  /** The first failure ends the loop; what came before it stays. */
  lemma {:induction false} MapWhileStops<A, B>(pre: seq<A>, bad: A, post: seq<A>, f: A -> Option<B>)
    requires AllSome(pre, f) && f(bad).None?
    ensures MapWhile(pre + [bad] + post, f) == MapWhile(pre, f)
  {
    MapWhileAppend(pre, [bad] + post, f);
    assert pre + [bad] + post == pre + ([bad] + post);
    assert MapWhile(pre, f) + [] == MapWhile(pre, f);
  }

  /** One more success adds its result. */
  lemma {:induction false} MapWhileStep<A, B>(s: seq<A>, j: nat, f: A -> Option<B>)
    requires j < |s| && AllSome(s[..j], f) && f(s[j]).Some?
    ensures AllSome(s[..j + 1], f)
    ensures MapWhile(s[..j + 1], f) == MapWhile(s[..j], f) + [f(s[j]).value]
  {
    assert s[..j + 1] == s[..j] + [s[j]];
    MapWhileAppend(s[..j], [s[j]], f);
    var t := s[..j + 1];
    forall k | 0 <= k < |t| ensures f(t[k]).Some? {
      if k < j {
        assert t[k] == s[..j][k];
      }
    }
    assert [s[j]][1..] == [];
  }

  /** Where the loop stopped, at the end or at a failure, it has produced
      everything. */
  lemma {:induction false} MapWhilePrefix<A, B>(s: seq<A>, j: nat, f: A -> Option<B>)
    requires j <= |s| && AllSome(s[..j], f)
    requires j < |s| ==> f(s[j]).None?
    ensures MapWhile(s, f) == MapWhile(s[..j], f)
  {
    if j == |s| {
      assert s[..j] == s;
    } else {
      MapWhileStops(s[..j], s[j], s[j + 1..], f);
      assert s == s[..j] + [s[j]] + s[j + 1..];
    }
  }

  lemma {:induction false} MapWhileOne<A, B>(x: A, f: A -> Option<B>)
    requires f(x).Some?
    ensures MapWhile([x], f) == [f(x).value]
  {
    assert [x][1..] == [];
    assert [f(x).value] + [] == [f(x).value];
  }

  /** `for x in s: out.extend(f(x))`. */
  function FlatMap<A, B>(s: seq<A>, f: A -> seq<B>): seq<B> {
    if s == [] then [] else FlatMap(s[..|s| - 1], f) + f(s[|s| - 1])
  }

  lemma {:induction false} FlatMapAppend<A, B>(a: seq<A>, b: seq<A>, f: A -> seq<B>)
    ensures FlatMap(a + b, f) == FlatMap(a, f) + FlatMap(b, f)
  {
    if b == [] {
      assert a + b == a;
    } else {
      assert (a + b)[..|a + b| - 1] == a + b[..|b| - 1];
      FlatMapAppend(a, b[..|b| - 1], f);
    }
  }

  lemma {:induction false} FlatMapStep<A, B>(s: seq<A>, i: nat, f: A -> seq<B>)
    requires i < |s|
    ensures FlatMap(s[..i + 1], f) == FlatMap(s[..i], f) + f(s[i])
  {
    assert s[..i + 1][..i] == s[..i];
  }

  lemma {:induction false} FlatMapTwo<A, B>(x: A, y: A, f: A -> seq<B>)
    ensures FlatMap([x, y], f) == f(x) + f(y)
  {
    assert [x, y][..1] == [x];
    assert [x][..0] == [];
    assert FlatMap([x], f) == FlatMap([], f) + f(x);
    assert FlatMap([], f) + f(x) == f(x);
  }

  /** One more element through the filter. */
  lemma {:induction false} FilterStep<T>(s: seq<T>, i: nat, p: T -> bool)
    requires i < |s|
    ensures Filter(s[..i + 1], p) == Filter(s[..i], p) + (if p(s[i]) then [s[i]] else [])
  {
    assert s[..i + 1][..i] == s[..i];
  }

  /** The index of the first element that passes, `None` when none does. */
  function FirstWhere<T>(s: seq<T>, p: T -> bool): (r: Option<nat>)
    ensures r.Some? ==> r.value < |s| && p(s[r.value])
    ensures r.Some? ==> forall k :: 0 <= k < r.value ==> !p(s[k])
    ensures r.None? <==> forall k :: 0 <= k < |s| ==> !p(s[k])
  {
    if s == [] then None
    else if p(s[0]) then Some(0)
    else match FirstWhere(s[1..], p)
      case None =>
        assert forall k :: 1 <= k < |s| ==> s[k] == s[1..][k - 1];
        None
      case Some(i) =>
        assert forall k :: 1 <= k < i + 1 ==> s[k] == s[1..][k - 1];
        Some(i + 1)
  }

  /** The first element that passes is found. */
  lemma {:induction false} FirstWhereIs<T>(s: seq<T>, p: T -> bool, i: nat)
    requires i < |s| && p(s[i])
    requires forall k :: 0 <= k < i ==> !p(s[k])
    ensures FirstWhere(s, p) == Some(i)
  {
  }


  /** The search loop `for x in s: if p(x): ...; return`: the index of
      the first element that passes. */
  method FindFirst<T>(s: seq<T>, p: T -> bool) returns (r: Option<nat>)
    ensures r == FirstWhere(s, p)
  {
    var i := 0;
    while i < |s|
      invariant 0 <= i <= |s|
      invariant forall k :: 0 <= k < i ==> !p(s[k])
    {
      if p(s[i]) {
        FirstWhereIs(s, p, i);
        return Some(i);
      }
      i := i + 1;
    }
    return None;
  }
}
