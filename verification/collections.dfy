/**
 * Sequence filtering (Java's `stream().filter` and `removeIf`) and insertion-ordered
 * maps (Java's `LinkedHashMap`) as association lists, with the group-and-sum fold
 * that `merge(key, value, Double::sum)` performs.
 */
module Collections {
  import opened Wrappers

  // ------------------------------------------------------------ filtering

  /** The elements of `s` that satisfy `keep`, in their order in `s`. */
  function Filter<T(!new)>(s: seq<T>, keep: T -> bool): (r: seq<T>)
    ensures |r| <= |s|
    ensures forall x :: x in r <==> x in s && keep(x)
  {
    if s == [] then [] else (if keep(s[0]) then [s[0]] else []) + Filter(s[1..], keep)
  }

  /** `a` can be obtained from `b` by deleting elements (relative order kept). */
  predicate IsSubsequence<T(==,!new)>(a: seq<T>, b: seq<T>)
  {
    if a == [] then true
    else if b == [] then false
    else if a[0] == b[0] then IsSubsequence(a[1..], b[1..])
    else IsSubsequence(a, b[1..])
  }

  /** Filtering keeps the surviving elements in their original relative order. */
  lemma {:induction false} FilterIsSubsequence<T(!new)>(s: seq<T>, keep: T -> bool)
    ensures IsSubsequence(Filter(s, keep), s)
  {
    if s != [] {
      FilterIsSubsequence(s[1..], keep);
      var rest := Filter(s[1..], keep);
      if keep(s[0]) {
        assert Filter(s, keep) == [s[0]] + rest;
        assert ([s[0]] + rest)[1..] == rest;
      } else {
        assert Filter(s, keep) == rest;
        if rest != [] {
          assert rest[0] in rest;
          assert keep(rest[0]);
        }
      }
    }
  }

  /** Filtering distributes over concatenation. */
  lemma {:induction false} FilterAppend<T(!new)>(a: seq<T>, b: seq<T>, keep: T -> bool)
    ensures Filter(a + b, keep) == Filter(a, keep) + Filter(b, keep)
  {
    if a == [] {
      assert a + b == b;
    } else {
      assert (a + b)[0] == a[0];
      assert (a + b)[1..] == a[1..] + b;
      FilterAppend(a[1..], b, keep);
      var head: seq<T> := if keep(a[0]) then [a[0]] else [];
      calc {
        Filter(a + b, keep);
        head + Filter(a[1..] + b, keep);
        head + (Filter(a[1..], keep) + Filter(b, keep));
        (head + Filter(a[1..], keep)) + Filter(b, keep);
      }
    }
  }

  /** Filtering by a weaker test first changes nothing. */
  lemma {:induction false} FilterImplied<T(!new)>(s: seq<T>, weak: T -> bool, strong: T -> bool)
    requires forall x :: strong(x) ==> weak(x)
    ensures Filter(Filter(s, weak), strong) == Filter(s, strong)
  {
    if s != [] {
      var head: seq<T> := if weak(s[0]) then [s[0]] else [];
      FilterImplied(s[1..], weak, strong);
      FilterAppend(head, Filter(s[1..], weak), strong);
      if weak(s[0]) {
        assert head[1..] == [];
      }
    }
  }

  /** Filtering drops something exactly when some element fails the test. */
  lemma {:induction false} FilterShrinksIff<T(!new)>(s: seq<T>, keep: T -> bool)
    ensures |Filter(s, keep)| < |s| <==> exists i :: 0 <= i < |s| && !keep(s[i])
  {
    if s != [] {
      FilterShrinksIff(s[1..], keep);
      if exists i :: 0 <= i < |s| - 1 && !keep(s[1..][i]) {
        var i :| 0 <= i < |s| - 1 && !keep(s[1..][i]);
        assert !keep(s[i + 1]);
      }
      if exists i :: 0 <= i < |s| && !keep(s[i]) {
        var i :| 0 <= i < |s| && !keep(s[i]);
        if i > 0 {
          assert !keep(s[1..][i - 1]);
        }
      }
    }
  }

  // ------------------------------------------------------------- distinct

  /** The elements of `s` without repetitions, each at its first appearance. */
  function Distinct<T(==,!new)>(s: seq<T>): (r: seq<T>)
    ensures forall x :: x in r <==> x in s
    ensures forall i, j :: 0 <= i < j < |r| ==> r[i] != r[j]
  {
    if s == [] then []
    else
      var d := Distinct(s[..|s| - 1]);
      if s[|s| - 1] in d then d else d + [s[|s| - 1]]
  }

  lemma {:induction false} SubsequenceExtendRight<T(!new)>(a: seq<T>, b: seq<T>, y: T)
    requires IsSubsequence(a, b)
    ensures IsSubsequence(a, b + [y])
  {
    if a != [] {
      assert (b + [y])[1..] == b[1..] + [y];
      if a[0] == b[0] {
        SubsequenceExtendRight(a[1..], b[1..], y);
      } else {
        SubsequenceExtendRight(a, b[1..], y);
      }
    }
  }

  lemma {:induction false} SubsequenceSingleton<T(!new)>(b: seq<T>, x: T)
    ensures IsSubsequence([x], b + [x])
  {
    if b != [] {
      assert (b + [x])[1..] == b[1..] + [x];
      SubsequenceSingleton(b[1..], x);
    }
  }

  lemma {:induction false} SubsequenceExtendBoth<T(!new)>(a: seq<T>, b: seq<T>, x: T)
    requires IsSubsequence(a, b)
    ensures IsSubsequence(a + [x], b + [x])
  {
    if a == [] {
      assert a + [x] == [x];
      SubsequenceSingleton(b, x);
    } else {
      assert (b + [x])[1..] == b[1..] + [x];
      assert (a + [x])[1..] == a[1..] + [x];
      if a[0] == b[0] {
        SubsequenceExtendBoth(a[1..], b[1..], x);
      } else {
        SubsequenceExtendBoth(a, b[1..], x);
      }
    }
  }

  /** The first appearances keep the order of `s`. */
  lemma {:induction false} DistinctIsSubsequence<T(!new)>(s: seq<T>)
    ensures IsSubsequence(Distinct(s), s)
  {
    if s != [] {
      var p := s[..|s| - 1];
      var x := s[|s| - 1];
      assert s == p + [x];
      DistinctIsSubsequence(p);
      if x in Distinct(p) {
        SubsequenceExtendRight(Distinct(p), p, x);
      } else {
        SubsequenceExtendBoth(Distinct(p), p, x);
      }
    }
  }

  // --------------------------------------------------- insertion-ordered maps

  /** A `LinkedHashMap`: the keys in insertion order, and the key-to-value map. */
  datatype LinkedMap<K, V> = LinkedMap(keys: seq<K>, values: map<K, V>)

  /** The empty map, `new LinkedHashMap<>()`. */
  function EmptyMap<K(!new), V>(): (r: LinkedMap<K, V>)
    ensures Valid(r) && r.keys == []
  {
    LinkedMap([], map[])
  }

  predicate NoDuplicates<T(==)>(s: seq<T>)
  {
    forall i, j :: 0 <= i < j < |s| ==> s[i] != s[j]
  }

  /** Every key is listed exactly once in the order. */
  predicate Valid<K(!new), V>(m: LinkedMap<K, V>)
  {
    NoDuplicates(m.keys)
    && (forall k :: k in m.keys ==> k in m.values)
    && (forall k :: k in m.values ==> k in m.keys)
  }

  /** `m.get(k)`, `None` for absent. */
  function Get<K(!new), V>(m: LinkedMap<K, V>, k: K): (r: Option<V>)
    ensures r.None? <==> k !in m.values
  {
    if k in m.values then Some(m.values[k]) else None
  }

  /** `m.put(k, v)`: replaces the value in place, or appends a new key. */
  function Put<K(!new), V>(m: LinkedMap<K, V>, k: K, v: V): (r: LinkedMap<K, V>)
    ensures r.keys == if k in m.values then m.keys else m.keys + [k]
    ensures Get(r, k) == Some(v)
    ensures forall k' :: k' != k ==> Get(r, k') == Get(m, k')
  {
    LinkedMap(if k in m.values then m.keys else m.keys + [k], m.values[k := v])
  }

  /** `put` keeps every key listed exactly once. */
  lemma PutValid<K(!new), V>(m: LinkedMap<K, V>, k: K, v: V)
    requires Valid(m)
    ensures Valid(Put(m, k, v))
  {
  }

  /** `m.merge(k, v, Double::sum)`. */
  function MergeAdd<K(!new)>(m: LinkedMap<K, real>, k: K, v: real): (r: LinkedMap<K, real>)
    ensures r.keys == if k in m.values then m.keys else m.keys + [k]
    ensures Get(r, k) == Some(if k in m.values then m.values[k] + v else v)
    ensures forall k' :: k' != k ==> Get(r, k') == Get(m, k')
  {
    Put(m, k, if k in m.values then m.values[k] + v else v)
  }

  /** `m.replaceAll((k, v) -> f(v))`: keys and order are untouched. */
  function MapValues<K(!new), V, W>(m: LinkedMap<K, V>, f: V -> W): (r: LinkedMap<K, W>)
    ensures r.keys == m.keys
    ensures forall k :: Get(r, k) == if k in m.values then Some(f(m.values[k])) else None
  {
    LinkedMap(m.keys, map k | k in m.values :: f(m.values[k]))
  }

  // ------------------------------------------------------- group and sum

  /** The first components of the pairs, in order. */
  function Firsts<K(!new), V>(pairs: seq<(K, V)>): (r: seq<K>)
    ensures |r| == |pairs|
  {
    if pairs == [] then [] else Firsts(pairs[..|pairs| - 1]) + [pairs[|pairs| - 1].0]
  }

  /** The sum of the values paired with `k`, in the order they occur. */
  function SumFor<K(==,!new)>(pairs: seq<(K, real)>, k: K): real
  {
    if pairs == [] then 0.0
    else
      var last := pairs[|pairs| - 1];
      SumFor(pairs[..|pairs| - 1], k) + (if last.0 == k then last.1 else 0.0)
  }

  /** The sum of all the values of the pairs. */
  function SumSnd<K(!new)>(pairs: seq<(K, real)>): real
  {
    if pairs == [] then 0.0 else SumSnd(pairs[..|pairs| - 1]) + pairs[|pairs| - 1].1
  }

  /** The map built by merging every pair, left to right, with `Double::sum`. */
  function GroupSum<K(!new)>(pairs: seq<(K, real)>): (r: LinkedMap<K, real>)
  {
    if pairs == [] then EmptyMap()
    else
      var last := pairs[|pairs| - 1];
      MergeAdd(GroupSum(pairs[..|pairs| - 1]), last.0, last.1)
  }

  lemma {:induction false} GroupSumValid<K(!new)>(pairs: seq<(K, real)>)
    ensures Valid(GroupSum(pairs))
  {
    if pairs != [] {
      var last := pairs[|pairs| - 1];
      GroupSumValid(pairs[..|pairs| - 1]);
      PutValid(GroupSum(pairs[..|pairs| - 1]), last.0, Get(GroupSum(pairs), last.0).value);
    }
  }

  lemma {:induction false} SumForAbsent<K(!new)>(pairs: seq<(K, real)>, k: K)
    requires k !in Firsts(pairs)
    ensures SumFor(pairs, k) == 0.0
  {
    if pairs != [] {
      SumForAbsent(pairs[..|pairs| - 1], k);
    }
  }

  /** The grouped map's keys are the keys of the pairs in first-appearance order. */
  lemma {:induction false} GroupSumKeys<K(!new)>(pairs: seq<(K, real)>)
    ensures GroupSum(pairs).keys == Distinct(Firsts(pairs))
  {
    if pairs != [] {
      var p := pairs[..|pairs| - 1];
      GroupSumKeys(p);
      GroupSumValid(p);
      assert Firsts(pairs)[..|pairs| - 1] == Firsts(p);
    }
  }

  /** Each key of the grouped map carries the sum of that key's values. */
  lemma {:induction false} GroupSumGet<K(!new)>(pairs: seq<(K, real)>, k: K)
    ensures Get(GroupSum(pairs), k) == (if k in Firsts(pairs) then Some(SumFor(pairs, k)) else None)
  {
    if pairs != [] {
      var p := pairs[..|pairs| - 1];
      var last := pairs[|pairs| - 1];
      var g := GroupSum(p);
      assert Firsts(pairs) == Firsts(p) + [last.0];
      assert SumFor(pairs, k) == SumFor(p, k) + (if last.0 == k then last.1 else 0.0);
      GroupSumGet(p, k);
      var r := MergeAdd(g, last.0, last.1);
      assert GroupSum(pairs) == r;
      if k != last.0 {
        assert Get(r, k) == Get(g, k);
      } else if k in Firsts(p) {
        assert Get(r, k) == Some(SumFor(p, k) + last.1);
      } else {
        SumForAbsent(p, k);
        assert Get(r, k) == Some(last.1);
      }
    }
  }

  /** The sum of the values of `keys` in `values`, absent keys counting zero. */
  function SumOver<K(!new)>(keys: seq<K>, values: map<K, real>): real
  {
    if keys == [] then 0.0
    else
      var k := keys[|keys| - 1];
      SumOver(keys[..|keys| - 1], values) + (if k in values then values[k] else 0.0)
  }

  /** The total of a map's values, summed in key order. */
  function SumValues<K(!new)>(m: LinkedMap<K, real>): real
  {
    SumOver(m.keys, m.values)
  }

  lemma {:induction false} SumOverUpdateAbsent<K(!new)>(keys: seq<K>, values: map<K, real>, k: K, v: real)
    requires k !in keys
    ensures SumOver(keys, values[k := v]) == SumOver(keys, values)
  {
    if keys != [] {
      SumOverUpdateAbsent(keys[..|keys| - 1], values, k, v);
    }
  }

  lemma {:induction false} SumOverUpdate<K(!new)>(keys: seq<K>, values: map<K, real>, k: K, v: real)
    requires NoDuplicates(keys) && k in keys && k in values
    ensures SumOver(keys, values[k := v]) == SumOver(keys, values) - values[k] + v
  {
    var p := keys[..|keys| - 1];
    if keys[|keys| - 1] == k {
      assert k !in p;
      SumOverUpdateAbsent(p, values, k, v);
    } else {
      assert k in p;
      SumOverUpdate(p, values, k, v);
    }
  }

  /** Merging a value into a map adds exactly that value to the total. */
  lemma SumValuesMergeAdd<K(!new)>(m: LinkedMap<K, real>, k: K, v: real)
    requires Valid(m)
    ensures SumValues(MergeAdd(m, k, v)) == SumValues(m) + v
  {
    var r := MergeAdd(m, k, v);
    if k in m.values {
      SumOverUpdate(m.keys, m.values, k, m.values[k] + v);
    } else {
      SumOverUpdateAbsent(m.keys, m.values, k, v);
      assert r.keys[..|r.keys| - 1] == m.keys;
    }
  }

  /** Grouping neither loses nor invents money: the group totals add up to the total. */
  lemma {:induction false} GroupSumPreservesTotal<K(!new)>(pairs: seq<(K, real)>)
    ensures SumValues(GroupSum(pairs)) == SumSnd(pairs)
  {
    if pairs != [] {
      var p := pairs[..|pairs| - 1];
      var last := pairs[|pairs| - 1];
      GroupSumPreservesTotal(p);
      GroupSumValid(p);
      SumValuesMergeAdd(GroupSum(p), last.0, last.1);
    }
  }
}
