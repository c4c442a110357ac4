/**
 * Accumulation into an insertion-ordered dictionary, the pattern the views
 * use for every breakdown: `d[k] = d.get(k, 0) + w` (or a record per key)
 * over a list of transactions. A Python dict is a `map` for the values plus
 * a `seq` of its keys in insertion order.
 */
module Grouping {

  predicate Distinct<T(==)>(s: seq<T>) {
    forall i, j :: 0 <= i < j < |s| ==> s[i] != s[j]
  }

  /** `sum(w(x) for x in s)`. */
  function Sum<T>(s: seq<T>, w: T -> int): int {
    if s == [] then 0 else Sum(s[..|s| - 1], w) + w(s[|s| - 1])
  }

  /** The part of `Sum(s, w)` contributed by the elements whose key is `k`. */
  function Total<T, K(==)>(s: seq<T>, key: T -> K, w: T -> int, k: K): int {
    if s == [] then 0
    else Total(s[..|s| - 1], key, w, k) + (if key(s[|s| - 1]) == k then w(s[|s| - 1]) else 0)
  }

  /** The per-key totals as a function of the key. */
  function TotalOf<T, K(==)>(s: seq<T>, key: T -> K, w: T -> int): K -> int {
    k => Total(s, key, w, k)
  }

  /** The keys of the dictionary after inserting `key(x)` for each `x` of `s` in turn. */
  function Keys<T, K(==)>(s: seq<T>, key: T -> K): (ks: seq<K>)
    ensures Distinct(ks)
    ensures forall i :: 0 <= i < |s| ==> key(s[i]) in ks
    ensures forall j :: 0 <= j < |ks| ==> exists i :: 0 <= i < |s| && key(s[i]) == ks[j]
  {
    if s == [] then []
    else
      var p := s[..|s| - 1];
      var ks' := Keys(p, key);
      var k := key(s[|s| - 1]);
      assert forall i :: 0 <= i < |p| ==> p[i] == s[i];
      if k in ks' then ks' else ks' + [k]
  }

  /** Keys stay in insertion order: the keys of a prefix are a prefix of the keys. */
  lemma {:induction false} KeysPrefix<T, K>(s: seq<T>, i: int, key: T -> K)
    requires 0 <= i <= |s|
    ensures Keys(s[..i], key) <= Keys(s, key)
  {
    if i < |s| {
      var p := s[..|s| - 1];
      KeysPrefix(p, i, key);
      assert p[..i] == s[..i];
    } else {
      assert s[..i] == s;
    }
  }

  lemma {:induction false} SumAppend<T>(a: seq<T>, b: seq<T>, w: T -> int)
    ensures Sum(a + b, w) == Sum(a, w) + Sum(b, w)
  {
    if b != [] {
      assert (a + b)[..|a + b| - 1] == a + b[..|b| - 1];
      SumAppend(a, b[..|b| - 1], w);
    } else {
      assert a + b == a;
    }
  }

  lemma {:induction false} SumCongruent<T>(s: seq<T>, f: T -> int, g: T -> int)
    requires forall i :: 0 <= i < |s| ==> f(s[i]) == g(s[i])
    ensures Sum(s, f) == Sum(s, g)
  {
    if s != [] {
      SumCongruent(s[..|s| - 1], f, g);
    }
  }

  lemma {:induction false} SumDifference<T>(s: seq<T>, f: T -> int, g: T -> int, h: T -> int)
    requires forall i :: 0 <= i < |s| ==> f(s[i]) == g(s[i]) - h(s[i])
    ensures Sum(s, f) == Sum(s, g) - Sum(s, h)
  {
    if s != [] {
      SumDifference(s[..|s| - 1], f, g, h);
    }
  }

  /** A sum does not depend on the order of its terms. */
  lemma {:induction false} SumPermutation<T>(a: seq<T>, b: seq<T>, w: T -> int)
    requires multiset(a) == multiset(b)
    ensures Sum(a, w) == Sum(b, w)
  {
    if a == [] {
      assert |b| == |multiset(b)| == 0;
    } else {
      var x := a[|a| - 1];
      var a' := a[..|a| - 1];
      assert multiset(a) == multiset(a') + multiset{x} by {
        assert a == a' + [x];
      }
      assert x in multiset(b);
      var j :| 0 <= j < |b| && b[j] == x;
      var b' := b[..j] + b[j + 1..];
      RemoveAt(b, j, b', w);
      SumPermutation(a', b', w);
    }
  }

  /** Taking the `j`-th element out of a list takes it out of its multiset and its sum. */
  lemma RemoveAt<T>(b: seq<T>, j: int, b': seq<T>, w: T -> int)
    requires 0 <= j < |b| && b' == b[..j] + b[j + 1..]
    ensures multiset(b') == multiset(b) - multiset{b[j]}
    ensures Sum(b, w) == Sum(b', w) + w(b[j])
  {
    assert b == b[..j] + [b[j]] + b[j + 1..];
    SumAppend(b[..j] + [b[j]], b[j + 1..], w);
    SumAppend(b[..j], [b[j]], w);
    SumAppend(b[..j], b[j + 1..], w);
    assert Sum([b[j]], w) == w(b[j]) by { assert [b[j]][..0] == []; }
  }

  lemma {:induction false} TotalAbsent<T, K>(s: seq<T>, key: T -> K, w: T -> int, k: K)
    requires k !in Keys(s, key)
    ensures Total(s, key, w, k) == 0
  {
    if s != [] {
      var p := s[..|s| - 1];
      assert k !in Keys(p, key);
      TotalAbsent(p, key, w, k);
    }
  }

  lemma {:induction false} TotalAppend<T, K>(a: seq<T>, b: seq<T>, key: T -> K, w: T -> int, k: K)
    ensures Total(a + b, key, w, k) == Total(a, key, w, k) + Total(b, key, w, k)
  {
    if b != [] {
      assert (a + b)[..|a + b| - 1] == a + b[..|b| - 1];
      TotalAppend(a, b[..|b| - 1], key, w, k);
    } else {
      assert a + b == a;
    }
  }

  /** The total of a list cut in two is the sum of the totals of the two parts. */
  lemma TotalSplit<T, K>(s: seq<T>, a: seq<T>, b: seq<T>, key: T -> K, w: T -> int, k: K)
    requires s == a + b
    ensures Total(s, key, w, k) == Total(a, key, w, k) + Total(b, key, w, k)
  {
    TotalAppend(a, b, key, w, k);
  }

  /** The total of the first `i + 1` elements adds the `i`-th element's share. */
  lemma TotalPrefixStep<T, K>(s: seq<T>, i: int, key: T -> K, w: T -> int, k: K)
    requires 0 <= i < |s|
    ensures Total(s[..i + 1], key, w, k) == Total(s[..i], key, w, k) + (if key(s[i]) == k then w(s[i]) else 0)
  {
    assert s[..i + 1][..i] == s[..i];
  }

  /**
   * Each element is counted in exactly one bucket: the total of key `k` is
   * what the elements before `s[i]` and after it contribute, plus `w(s[i])`
   * exactly when `k` is the key of `s[i]`.
   */
  lemma ExactlyOneBucket<T, K>(s: seq<T>, i: int, key: T -> K, w: T -> int, k: K)
    requires 0 <= i < |s|
    ensures Total(s, key, w, k)
         == Total(s[..i], key, w, k) + (if key(s[i]) == k then w(s[i]) else 0) + Total(s[i + 1..], key, w, k)
  {
    TotalSplit(s, s[..i + 1], s[i + 1..], key, w, k);
    TotalPrefixStep(s, i, key, w, k);
  }

  /** Summing the bucket totals over distinct keys before and after the last element of `s`. */
  lemma {:induction false} KeySumStep<T, K>(ks: seq<K>, s: seq<T>, key: T -> K, w: T -> int)
    requires Distinct(ks) && s != []
    ensures Sum(ks, TotalOf(s, key, w))
         == Sum(ks, TotalOf(s[..|s| - 1], key, w)) + (if key(s[|s| - 1]) in ks then w(s[|s| - 1]) else 0)
  {
    if ks != [] {
      KeySumStep(ks[..|ks| - 1], s, key, w);
      assert ks == ks[..|ks| - 1] + [ks[|ks| - 1]];
    }
  }

  /** A key met for the first time adds one bucket holding just the last element. */
  lemma NewKeySum<T, K>(s: seq<T>, key: T -> K, w: T -> int, ks': seq<K>)
    requires s != [] && ks' == Keys(s[..|s| - 1], key) && key(s[|s| - 1]) !in ks'
    ensures Sum(Keys(s, key), TotalOf(s, key, w)) == Sum(ks', TotalOf(s, key, w)) + w(s[|s| - 1])
  {
    TotalAbsent(s[..|s| - 1], key, w, key(s[|s| - 1]));
    var ks := ks' + [key(s[|s| - 1])];
    assert ks[..|ks| - 1] == ks';
  }

  /** The buckets partition the list: their totals add up to the sum over all elements. */
  lemma {:induction false} PartitionSum<T, K>(s: seq<T>, key: T -> K, w: T -> int)
    ensures Sum(Keys(s, key), TotalOf(s, key, w)) == Sum(s, w)
  {
    if s != [] {
      var p := s[..|s| - 1];
      var ks' := Keys(p, key);
      PartitionSum(p, key, w);
      KeySumStep(ks', s, key, w);
      if key(s[|s| - 1]) !in ks' {
        NewKeySum(s, key, w, ks');
      }
    }
  }

  /** `d[k] = d.get(k, 0) + v` on the dictionary `m`. */
  function Add<K>(m: map<K, int>, k: K, v: int): (r: map<K, int>)
    ensures r.Keys == m.Keys + {k}
    ensures r[k] == (if k in m then m[k] else 0) + v
    ensures forall k' :: k' in m && k' != k ==> r[k'] == m[k']
  {
    m[k := (if k in m then m[k] else 0) + v]
  }

  /** The dictionary after `for x in s: d[key(x)] = d.get(key(x), 0) + w(x)`, starting empty. */
  ghost function Tally<T, K>(s: seq<T>, key: T -> K, w: T -> int): map<K, int> {
    if s == [] then map[]
    else Add(Tally(s[..|s| - 1], key, w), key(s[|s| - 1]), w(s[|s| - 1]))
  }

  /** The dictionary holds exactly the keys met, each with the total of its elements. */
  lemma {:induction false} TallyMeaning<T, K(!new)>(s: seq<T>, key: T -> K, w: T -> int)
    ensures forall k :: k in Tally(s, key, w) <==> k in Keys(s, key)
    ensures forall k :: k in Tally(s, key, w) ==> Tally(s, key, w)[k] == Total(s, key, w, k)
  {
    if s != [] {
      TallyMeaning(s[..|s| - 1], key, w);
      AddKeys(s, key, w, Tally(s[..|s| - 1], key, w));
      AddTotals(s, key, w, Tally(s[..|s| - 1], key, w));
    }
  }

  /** Adding the last element of `s` to a dictionary keyed like the rest of `s` keys it like `s`. */
  lemma AddKeys<T, K(!new)>(s: seq<T>, key: T -> K, w: T -> int, m: map<K, int>)
    requires s != []
    requires forall k :: k in m <==> k in Keys(s[..|s| - 1], key)
    ensures forall k :: k in Add(m, key(s[|s| - 1]), w(s[|s| - 1])) <==> k in Keys(s, key)
  {
    var p, x := s[..|s| - 1], s[|s| - 1];
    assert Keys(s, key) == if key(x) in Keys(p, key) then Keys(p, key) else Keys(p, key) + [key(x)];
  }

  /** Adding the last element of `s` to the totals of the rest gives the totals of `s`. */
  lemma AddTotals<T, K(!new)>(s: seq<T>, key: T -> K, w: T -> int, m: map<K, int>)
    requires s != []
    requires forall k :: k in m ==> k in Keys(s[..|s| - 1], key)
    requires forall k :: k in Keys(s[..|s| - 1], key) ==> k in m && m[k] == Total(s[..|s| - 1], key, w, k)
    ensures forall k :: k in Add(m, key(s[|s| - 1]), w(s[|s| - 1])) ==>
      Add(m, key(s[|s| - 1]), w(s[|s| - 1]))[k] == Total(s, key, w, k)
  {
    var p, x := s[..|s| - 1], s[|s| - 1];
    var r := Add(m, key(x), w(x));
    forall k | k in r
      ensures r[k] == Total(s, key, w, k)
    {
      if k == key(x) && k !in m {
        TotalAbsent(p, key, w, k);
      }
    }
  }

  /** A dictionary `m` and key list `order` that are the tally of `s` have the meaning the loops promise. */
  lemma TallyFinal<T, K(!new)>(s: seq<T>, key: T -> K, w: T -> int, order: seq<K>, m: map<K, int>)
    requires order == Keys(s, key) && m == Tally(s, key, w)
    ensures forall k :: k in m <==> k in order
    ensures forall k :: k in m ==> m[k] == Total(s, key, w, k)
  {
    TallyMeaning(s, key, w);
  }

  /** The dictionary after one more element, at position `i` of the list. */
  lemma TallyAt<T, K>(s: seq<T>, i: int, key: T -> K, w: T -> int, m: map<K, int>)
    requires 0 <= i < |s| && m == Tally(s[..i], key, w)
    ensures Tally(s[..i + 1], key, w) == Add(m, key(s[i]), w(s[i]))
  {
    assert s[..i + 1][..i] == s[..i];
  }

  /** The key list after one more element, at position `i` of the list. */
  lemma KeysAt<T, K>(s: seq<T>, i: int, key: T -> K, order: seq<K>)
    requires 0 <= i < |s| && order == Keys(s[..i], key)
    ensures Keys(s[..i + 1], key) == if key(s[i]) in order then order else order + [key(s[i])]
  {
    assert s[..i + 1][..i] == s[..i];
  }

  /**
   * The loop `for x in s: d[key(x)] = d.get(key(x), 0) + w(x)`, giving the
   * dictionary's keys in insertion order and its values.
   */
  method Accumulate<T, K(==, !new)>(s: seq<T>, key: T -> K, w: T -> int) returns (order: seq<K>, totals: map<K, int>)
    ensures order == Keys(s, key)
    ensures forall k :: k in totals <==> k in order
    ensures forall k :: k in totals ==> totals[k] == Total(s, key, w, k)
  {
    order, totals := [], map[];
    for i := 0 to |s|
      invariant order == Keys(s[..i], key) && totals == Tally(s[..i], key, w)
    {
      var k := key(s[i]);
      KeysAt(s, i, key, order);
      TallyAt(s, i, key, w, totals);
      order, totals := if k in order then order else order + [k], Add(totals, k, w(s[i]));
    }
    assert s[..|s|] == s;
    TallyFinal(s, key, w, order, totals);
  }

  /**
   * The same loop keeping two sums per key, for a record such as
   * `{'income': 0, 'expense': 0}` that each element adds to.
   */
  method AccumulatePair<T, K(==, !new)>(s: seq<T>, key: T -> K, w1: T -> int, w2: T -> int)
    returns (order: seq<K>, first: map<K, int>, second: map<K, int>)
    ensures order == Keys(s, key)
    ensures forall k :: k in first <==> k in order
    ensures forall k :: k in second <==> k in order
    ensures forall k :: k in first ==> first[k] == Total(s, key, w1, k)
    ensures forall k :: k in second ==> second[k] == Total(s, key, w2, k)
  {
    order, first, second := [], map[], map[];
    for i := 0 to |s|
      invariant order == Keys(s[..i], key) && first == Tally(s[..i], key, w1) && second == Tally(s[..i], key, w2)
    {
      var k := key(s[i]);
      KeysAt(s, i, key, order);
      TallyAt(s, i, key, w1, first);
      TallyAt(s, i, key, w2, second);
      order, first, second :=
        if k in order then order else order + [k], Add(first, k, w1(s[i])), Add(second, k, w2(s[i]));
    }
    assert s[..|s|] == s;
    TallyFinal(s, key, w1, order, first);
    TallyFinal(s, key, w2, order, second);
  }

  /**
   * `max(d, key=d.get)`: the position, in insertion order, of the first key
   * whose value is largest.
   */
  method FirstMax<K>(order: seq<K>, values: map<K, int>) returns (best: nat)
    requires |order| > 0
    requires forall k :: k in order ==> k in values
    ensures best < |order|
    ensures forall j :: 0 <= j < |order| ==> values[order[j]] <= values[order[best]]
    ensures forall j :: 0 <= j < best ==> values[order[j]] < values[order[best]]
  {
    best := 0;
    var i := 1;
    while i < |order|
      invariant 1 <= i <= |order| && best < i
      invariant forall j :: 0 <= j < i ==> values[order[j]] <= values[order[best]]
      invariant forall j :: 0 <= j < best ==> values[order[j]] < values[order[best]]
    {
      if values[order[i]] > values[order[best]] {
        best := i;
      }
      i := i + 1;
    }
  }

  /**
   * `top` is what `max` returns over `order` by `value`: a key no other key
   * exceeds, every key before it falling strictly short of it.
   */
  predicate IsFirstMax<K(==)>(order: seq<K>, value: K -> int, top: K) {
    && top in order
    && (forall j :: 0 <= j < |order| ==> value(order[j]) <= value(top))
    && (forall j, k :: 0 <= j < k < |order| && order[k] == top ==> value(order[j]) < value(top))
  }

  /** At most one key is the first maximal one. */
  lemma FirstMaxUnique<K>(order: seq<K>, value: K -> int, a: K, b: K)
    requires IsFirstMax(order, value, a) && IsFirstMax(order, value, b)
    ensures a == b
  {
    var ja :| 0 <= ja < |order| && order[ja] == a;
    var jb :| 0 <= jb < |order| && order[jb] == b;
    assert value(a) == value(b);
  }

  /** The index `FirstMax` finds names the first maximal key. */
  lemma FirstMaxFound<K>(order: seq<K>, values: map<K, int>, value: K -> int, best: nat)
    requires best < |order|
    requires forall j :: 0 <= j < |order| ==> order[j] in values && values[order[j]] == value(order[j])
    requires forall j :: 0 <= j < |order| ==> values[order[j]] <= values[order[best]]
    requires forall j :: 0 <= j < best ==> values[order[j]] < values[order[best]]
    requires Distinct(order)
    ensures IsFirstMax(order, value, order[best])
  {
  }
}
