/** Sums over the entries of a finite map. */
module Sums {

  ghost function SumOf<K, V>(m: map<K, V>, f: (K, V) -> int): int
    decreases |m|
  {
    if m == map[] then 0
    else
      var k :| k in m;
      f(k, m[k]) + SumOf(m - {k}, f)
  }

  /** The entry to remove first does not matter. */
  lemma {:induction false} SumSplit<K, V>(m: map<K, V>, k: K, f: (K, V) -> int)
    requires k in m
    ensures SumOf(m, f) == f(k, m[k]) + SumOf(m - {k}, f)
    decreases |m|
  {
    var j :| j in m && SumOf(m, f) == f(j, m[j]) + SumOf(m - {j}, f);
    if j != k {
      SumSplit(m - {j}, k, f);
      SumSplit(m - {k}, j, f);
      assert m - {j} - {k} == m - {k} - {j};
    }
  }

  ghost function Term<K, V>(m: map<K, V>, k: K, f: (K, V) -> int): int {
    if k in m then f(k, m[k]) else 0
  }

  /** Overwriting one entry changes the sum by the change of that entry. */
  lemma SumUpdate<K, V>(m: map<K, V>, k: K, v: V, f: (K, V) -> int)
    ensures SumOf(m[k := v], f) == SumOf(m, f) - Term(m, k, f) + f(k, v)
  {
    SumSplit(m[k := v], k, f);
    assert m[k := v] - {k} == m - {k};
    if k in m {
      SumSplit(m, k, f);
    } else {
      assert m - {k} == m;
    }
  }

  /** A sum of non-negative terms bounds each of them. */
  lemma {:induction false} SumBounds<K, V>(m: map<K, V>, f: (K, V) -> int)
    requires forall k :: k in m ==> f(k, m[k]) >= 0
    ensures SumOf(m, f) >= 0
    ensures forall k :: k in m ==> f(k, m[k]) <= SumOf(m, f)
    decreases |m|
  {
    if m != map[] {
      forall k | k in m ensures 0 <= f(k, m[k]) <= SumOf(m, f) {
        SumSplit(m, k, f);
        SumBounds(m - {k}, f);
      }
      var k :| k in m;
      assert 0 <= f(k, m[k]) <= SumOf(m, f);
    }
  }

  lemma {:induction false} SumZero<K, V>(m: map<K, V>, f: (K, V) -> int)
    requires forall k :: k in m ==> f(k, m[k]) == 0
    ensures SumOf(m, f) == 0
    decreases |m|
  {
    if m != map[] {
      var k :| k in m;
      SumSplit(m, k, f);
      SumZero(m - {k}, f);
    }
  }

  ghost function Value<K>(): (K, int) -> int {
    (k: K, v: int) => v
  }

  /** Everything held in a table of balances. */
  ghost function SumValues<K>(balances: map<K, int>): int {
    SumOf(balances, Value<K>())
  }

  lemma SumValuesUpdate<K>(balances: map<K, int>, k: K, v: int)
    ensures SumValues(balances[k := v]) == SumValues(balances) - (if k in balances then balances[k] else 0) + v
  {
    SumUpdate(balances, k, v, Value<K>());
  }
}
