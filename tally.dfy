/** The accumulator dictionary the reports build: `if key in d: d[key] +=
    value else: d[key] = value`. A Python dictionary remembers insertion
    order, so it is modelled as an association list of `(key, value)`
    pairs, one per key, in the order the keys were first seen. */
module Tally {
  import opened Wrappers
  import opened Seqs

  /** The keys of an association list, in order. */
  function Keys<K(==), V>(acc: seq<(K, V)>): (ks: seq<K>)
    ensures |ks| == |acc| && forall i :: 0 <= i < |acc| ==> ks[i] == acc[i].0
  {
    if acc == [] then [] else Keys(acc[..|acc| - 1]) + [acc[|acc| - 1].0]
  }

  /** No key occurs twice. */
  predicate Distinct<K(==)>(ks: seq<K>) {
    forall i, j :: 0 <= i < j < |ks| ==> ks[i] != ks[j]
  }

  /** The keys of `ks` in order of first occurrence, each once. */
  function Dedup<K(==)>(ks: seq<K>): seq<K> {
    if ks == [] then []
    else
      var init, last := ks[..|ks| - 1], ks[|ks| - 1];
      if last in init then Dedup(init) else Dedup(init) + [last]
  }

  /** `key in d`, and where. */
  function Find<K(==), V>(acc: seq<(K, V)>, k: K): (r: Option<nat>)
    ensures r.Some? ==> r.value < |acc| && acc[r.value].0 == k
    ensures r.None? <==> k !in Keys(acc)
  {
    if acc == [] then None
    else if acc[0].0 == k then Some(0)
    else match Find(acc[1..], k)
      case None =>
        assert Keys(acc) == [acc[0].0] + Keys(acc[1..]);
        None
      case Some(i) =>
        assert Keys(acc) == [acc[0].0] + Keys(acc[1..]);
        Some(i + 1)
  }

  /** One step of the accumulator: `d[key] += value` for a key already
      present, `d[key] = value` for a new one. */
  function Add<K(==), V>(acc: seq<(K, V)>, e: (K, V), plus: (V, V) -> V): (r: seq<(K, V)>)
    ensures Keys(r) == if e.0 in Keys(acc) then Keys(acc) else Keys(acc) + [e.0]
  {
    match Find(acc, e.0)
    case Some(i) =>
      var r := acc[i := (e.0, plus(acc[i].1, e.1))];
      assert Keys(r) == Keys(acc);
      r
    case None => acc + [e]
  }

  /** The step for a key already present. */
  lemma {:induction false} AddFound<K, V>(acc: seq<(K, V)>, e: (K, V), plus: (V, V) -> V, i: nat)
    requires Find(acc, e.0) == Some(i)
    ensures Add(acc, e, plus) == acc[i := (e.0, plus(acc[i].1, e.1))]
  {
  }

  /** The step for a new key. */
  lemma {:induction false} AddNew<K, V>(acc: seq<(K, V)>, e: (K, V), plus: (V, V) -> V)
    requires Find(acc, e.0) == None
    ensures Add(acc, e, plus) == acc + [e]
  {
  }

  /** The accumulator after all entries, in order. */
  function AddAll<K(==), V>(acc: seq<(K, V)>, es: seq<(K, V)>, plus: (V, V) -> V): seq<(K, V)> {
    if es == [] then acc else Add(AddAll(acc, es[..|es| - 1], plus), es[|es| - 1], plus)
  }

  lemma {:induction false} DedupMembers<K>(ks: seq<K>)
    ensures forall k :: k in Dedup(ks) <==> k in ks
    ensures Distinct(Dedup(ks))
  {
    if ks != [] {
      var init := ks[..|ks| - 1];
      DedupMembers(init);
      assert ks == init + [ks[|ks| - 1]];
    }
  }

  /** The accumulated keys are the keys of the entries in order of first
      appearance, each once. */
  lemma {:induction false} AddAllKeys<K, V>(es: seq<(K, V)>, plus: (V, V) -> V)
    ensures Keys(AddAll([], es, plus)) == Dedup(Keys(es))
  {
    if es != [] {
      var init := es[..|es| - 1];
      AddAllKeys(init, plus);
      assert Keys(es) == Keys(init) + [es[|es| - 1].0];
      assert Keys(es)[..|es| - 1] == Keys(init);
      DedupMembers(Keys(init));
    }
  }

  /** The measure `f` summed over the values of the entries with key `k`. */
  function KeySum<K(==), V>(es: seq<(K, V)>, k: K, f: V -> int): int {
    if es == [] then 0
    else KeySum(es[..|es| - 1], k, f) + (if es[|es| - 1].0 == k then f(es[|es| - 1].1) else 0)
  }

  /** Adding entries in two batches is adding them all. */
  lemma {:induction false} AddAllAppend<K, V>(acc: seq<(K, V)>, a: seq<(K, V)>, b: seq<(K, V)>, plus: (V, V) -> V)
    ensures AddAll(acc, a + b, plus) == AddAll(AddAll(acc, a, plus), b, plus)
  {
    if b == [] {
      assert a + b == a;
    } else {
      assert (a + b)[..|a + b| - 1] == a + b[..|b| - 1];
      AddAllAppend(acc, a, b[..|b| - 1], plus);
    }
  }

  /** A key's value is the sum of the entries with that key, for any
      measure `f` that `plus` adds up. */
  lemma {:induction false} AddAllSums<K, V>(es: seq<(K, V)>, plus: (V, V) -> V, f: V -> int, i: nat)
    requires forall a, b :: f(plus(a, b)) == f(a) + f(b)
    requires i < |AddAll([], es, plus)|
    ensures f(AddAll([], es, plus)[i].1) == KeySum(es, AddAll([], es, plus)[i].0, f)
    decreases |es|, 1
  {
    var init, last := es[..|es| - 1], es[|es| - 1];
    var prev := AddAll([], init, plus);
    match Find(prev, last.0)
    case Some(j) => SumsFound(es, plus, f, i, j);
    case None => SumsNew(es, plus, f, i);
  }

  /** The step of `AddAllSums` when the last entry's key was seen before. */
  lemma {:induction false} SumsFound<K, V>(es: seq<(K, V)>, plus: (V, V) -> V, f: V -> int, i: nat, j: nat)
    requires forall a, b :: f(plus(a, b)) == f(a) + f(b)
    requires i < |AddAll([], es, plus)| && es != []
    requires Find(AddAll([], es[..|es| - 1], plus), es[|es| - 1].0) == Some(j)
    ensures f(AddAll([], es, plus)[i].1) == KeySum(es, AddAll([], es, plus)[i].0, f)
    decreases |es|, 0
  {
    var acc := AddAll([], es, plus);
    var init, last := es[..|es| - 1], es[|es| - 1];
    var prev := AddAll([], init, plus);
    assert acc == Add(prev, last, plus);
    AddFound(prev, last, plus, j);
    var k := acc[i].0;
    assert KeySum(es, k, f) == KeySum(init, k, f) + (if last.0 == k then f(last.1) else 0);
    AddAllSums(init, plus, f, i);
    if i != j {
      AddAllKeys(init, plus);
      DedupMembers(Keys(init));
      assert Keys(prev)[i] != Keys(prev)[j];
      assert acc[i] == prev[i];
    }
  }

  /** The step of `AddAllSums` when the last entry's key is new. */
  lemma {:induction false} SumsNew<K, V>(es: seq<(K, V)>, plus: (V, V) -> V, f: V -> int, i: nat)
    requires forall a, b :: f(plus(a, b)) == f(a) + f(b)
    requires i < |AddAll([], es, plus)| && es != []
    requires Find(AddAll([], es[..|es| - 1], plus), es[|es| - 1].0).None?
    ensures f(AddAll([], es, plus)[i].1) == KeySum(es, AddAll([], es, plus)[i].0, f)
    decreases |es|, 0
  {
    var acc := AddAll([], es, plus);
    var init, last := es[..|es| - 1], es[|es| - 1];
    var prev := AddAll([], init, plus);
    assert acc == prev + [last] by {
      assert acc == Add(prev, last, plus);
      AddNew(prev, last, plus);
    }
    var k := acc[i].0;
    assert KeySum(es, k, f) == KeySum(init, k, f) + (if last.0 == k then f(last.1) else 0);
    if i < |prev| {
      assert acc[i] == prev[i];
      AddAllSums(init, plus, f, i);
    } else {
      assert acc[i] == last;
      assert k !in Keys(init) by {
        AddAllKeys(init, plus);
        DedupMembers(Keys(init));
      }
      KeySumMissing(init, k, f);
    }
  }

  /** A key that never occurs sums to nothing. */
  lemma {:induction false} KeySumMissing<K, V>(es: seq<(K, V)>, k: K, f: V -> int)
    requires k !in Keys(es)
    ensures KeySum(es, k, f) == 0
  {
    if es != [] {
      assert Keys(es) == Keys(es[..|es| - 1]) + [es[|es| - 1].0];
      KeySumMissing(es[..|es| - 1], k, f);
    }
  }

  /** A key is accumulated exactly when some entry carries it. */
  lemma {:induction false} AddAllHasKey<K, V>(es: seq<(K, V)>, plus: (V, V) -> V, k: K)
    ensures k in Keys(AddAll([], es, plus)) <==> k in Keys(es)
    ensures Distinct(Keys(AddAll([], es, plus)))
  {
    AddAllKeys(es, plus);
    DedupMembers(Keys(es));
  }

  // ------------------------------------------------- keyed accumulation

  /** `(key(x), val(x))` for every element whose key is present, in order:
      the entries a loop that skips keyless elements feeds the
      accumulator. */
  function Keyed<T, K>(s: seq<T>, key: T -> Option<K>, val: T -> int): seq<(K, int)> {
    if s == [] then []
    else
      var last := s[|s| - 1];
      Keyed(s[..|s| - 1], key, val) + match key(last) case None => [] case Some(k) => [(k, val(last))]
  }

  /** The elements whose key is `k`. */
  function WithKey<T, K(==)>(s: seq<T>, key: T -> Option<K>, k: K): seq<T> {
    Filter(s, (x: T) => key(x) == Some(k))
  }

  function Id(v: int): int {
    v
  }

  /** `+=` on integers. */
  function Plus(a: int, b: int): int {
    a + b
  }

  lemma {:induction false} KeyedStep<T, K>(s: seq<T>, i: nat, key: T -> Option<K>, val: T -> int)
    requires i < |s|
    ensures Keyed(s[..i + 1], key, val) == Keyed(s[..i], key, val) + match key(s[i]) case None => [] case Some(k) => [(k, val(s[i]))]
  {
    assert s[..i + 1][..i] == s[..i];
  }

  /** One more element through a loop that accumulates keyed values. */
  lemma {:induction false} KeyedAddStep<T, K>(s: seq<T>, i: nat, key: T -> Option<K>, val: T -> int)
    requires i < |s|
    ensures AddAll([], Keyed(s[..i + 1], key, val), Plus) ==
      match key(s[i])
      case None => AddAll([], Keyed(s[..i], key, val), Plus)
      case Some(k) => Add(AddAll([], Keyed(s[..i], key, val), Plus), (k, val(s[i])), Plus)
  {
    KeyedStep(s, i, key, val);
    var before := Keyed(s[..i], key, val);
    match key(s[i])
    case None =>
      assert before + [] == before;
    case Some(k) =>
      assert (before + [(k, val(s[i]))])[..|before|] == before;
  }

  /** The values keyed `k` add up to the values of the elements with key
      `k`. */
  lemma {:induction false} KeyedSum<T, K>(s: seq<T>, key: T -> Option<K>, val: T -> int, k: K)
    ensures KeySum(Keyed(s, key, val), k, Id) == Sum(WithKey(s, key, k), val)
  {
    if s != [] {
      var init, last := s[..|s| - 1], s[|s| - 1];
      KeyedSum(init, key, val, k);
      var before := Keyed(init, key, val);
      match key(last)
      case None =>
        assert Keyed(s, key, val) == before + [];
        assert before + [] == before;
        assert WithKey(s, key, k) == WithKey(init, key, k) + [];
        assert WithKey(init, key, k) + [] == WithKey(init, key, k);
      case Some(j) =>
        var e := (j, val(last));
        assert Keyed(s, key, val) == before + [e];
        assert (before + [e])[..|before|] == before;
        if j == k {
          assert WithKey(s, key, k) == WithKey(init, key, k) + [last];
          SumAppend(WithKey(init, key, k), [last], val);
          SumOne(last, val);
        } else {
          assert WithKey(s, key, k) == WithKey(init, key, k) + [];
          assert WithKey(init, key, k) + [] == WithKey(init, key, k);
        }
    }
  }

  /** A key is among the entries exactly when some element carries it. */
  lemma {:induction false} KeyedKeys<T, K>(s: seq<T>, key: T -> Option<K>, val: T -> int, k: K)
    ensures k in Keys(Keyed(s, key, val)) <==> exists x :: x in s && key(x) == Some(k)
  {
    if s != [] {
      var init, last := s[..|s| - 1], s[|s| - 1];
      KeyedKeys(init, key, val, k);
      var before := Keyed(init, key, val);
      assert s == init + [last];
      match key(last)
      case None =>
        assert Keyed(s, key, val) == before + [];
        assert before + [] == before;
      case Some(j) =>
        var e := (j, val(last));
        assert Keyed(s, key, val) == before + [e];
        assert Keys(before + [e]) == Keys(before) + [j];
    }
  }

  /** An element without a key contributes nothing, wherever it stands. */
  lemma {:induction false} KeyedSkip<T, K>(pre: seq<T>, x: T, post: seq<T>, key: T -> Option<K>, val: T -> int)
    requires key(x).None?
    ensures Keyed(pre + [x] + post, key, val) == Keyed(pre + post, key, val)
    decreases |post|
  {
    if post == [] {
      assert (pre + [x])[..|pre|] == pre;
      assert pre + [x] + post == pre + [x];
      assert Keyed(pre + [x], key, val) == Keyed(pre, key, val) + [];
      assert pre + post == pre;
    } else {
      var init := post[..|post| - 1];
      KeyedSkip(pre, x, init, key, val);
      assert (pre + [x] + post)[..|pre + [x] + post| - 1] == pre + [x] + init;
      assert (pre + post)[..|pre + post| - 1] == pre + init;
    }
  }

  /** Nothing keyed gives no entries. */
  lemma {:induction false} KeyedNone<T, K>(s: seq<T>, key: T -> Option<K>, val: T -> int)
    requires forall i :: 0 <= i < |s| ==> key(s[i]).None?
    ensures Keyed(s, key, val) == []
  {
    if s != [] {
      KeyedNone(s[..|s| - 1], key, val);
    }
  }
}
