/** Small shared vocabulary: optional values, results, and counting the entries of a map. */
module Prelude {

  const U64: nat := 0x1_0000_0000_0000_0000

  datatype Option<+T> = None | Some(value: T)

  datatype Result<+T, +E> = Ok(value: T) | Err(error: E)

  /** `m` with the binding of `k` replaced by `v`, or dropped when `v` is None. */
  function Put<K, V>(m: map<K, V>, k: K, v: Option<V>): map<K, V> {
    if v.Some? then m[k := v.value] else m - {k}
  }

  /** The keys of `m` whose values satisfy `f`. */
  ghost function Select<K, V>(m: map<K, V>, f: V -> bool): set<K> {
    set k | k in m && f(m[k])
  }

  function Bit(b: bool): nat {
    if b then 1 else 0
  }

  lemma RemoveOne<T>(s: set<T>, k: T)
    ensures |s| == |s - {k}| + Bit(k in s)
  {
    if k in s {
      assert s == (s - {k}) + {k};
    } else {
      assert s == s - {k};
    }
  }

  lemma SelectPutElsewhere<K, V>(m: map<K, V>, k: K, v: Option<V>, f: V -> bool)
    ensures Select(Put(m, k, v), f) - {k} == Select(m, f) - {k}
    ensures k in Select(Put(m, k, v), f) <==> v.Some? && f(v.value)
    ensures k in Select(m, f) <==> k in m && f(m[k])
  {
    var after := Select(Put(m, k, v), f);
    forall j | j != k ensures j in after <==> j in Select(m, f) {
    }
  }

  /** Rebinding one key changes a selection by at most that key. */
  lemma SelectPut<K, V>(m: map<K, V>, k: K, v: Option<V>, f: V -> bool)
    ensures |Select(Put(m, k, v), f)|
            == |Select(m, f)| - Bit(k in m && f(m[k])) + Bit(v.Some? && f(v.value))
  {
    SelectPutElsewhere(m, k, v, f);
    RemoveOne(Select(m, f), k);
    RemoveOne(Select(Put(m, k, v), f), k);
  }

  /** A smaller set has no more elements. */
  lemma SubsetCardinality<T>(a: set<T>, b: set<T>)
    requires a <= b
    ensures |a| <= |b|
    ensures a < b ==> |a| < |b|
  {
    assert b == a + (b - a);
  }
}
