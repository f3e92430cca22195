/** Definitions shared by the models. */
module Basics {

  /** `size_t` and `unsigned long` have 64 bits. */
  const LIMIT_64: nat := 0x1_0000_0000_0000_0000

  datatype Option<+T> = None | Some(value: T)

  ghost predicate Distinct<T>(s: seq<T>) {
    forall i, j :: 0 <= i < j < |s| ==> s[i] != s[j]
  }

  type Pos = n: int | n >= 1 witness 1

  /** Keys and sizes of a map with a key more, and with a key less. */
  lemma MapSizes<K, V>(m: map<K, V>, k: K, v: V)
    ensures m[k := v].Keys == m.Keys + {k} && (m - {k}).Keys == m.Keys - {k}
    ensures |m[k := v]| == |m| + if k in m then 0 else 1
    ensures |m - {k}| == |m| - if k in m then 1 else 0
  {
    var more, less := m[k := v], m - {k};
    assert more.Keys == m.Keys + {k} && less.Keys == m.Keys - {k};
    assert |more| == |more.Keys| && |m| == |m.Keys| && |less| == |less.Keys|;
    if k in m {
      assert m.Keys + {k} == m.Keys;
    }
  }
}
