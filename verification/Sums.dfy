/** Sums over finite maps, and the few laws about them the money properties need. */
module Sums {

  /** The sum of a map's values: SQL's `COALESCE(SUM(column), 0)`. */
  ghost function Sum<K>(m: map<K, nat>): nat
    decreases |m|
  {
    if m == map[] then 0 else
      var k :| k in m;
      m[k] + Sum(m - {k})
  }

  /** Any key may be split off, not only the one the definition picks. */
  lemma {:induction false} SumSplit<K>(m: map<K, nat>, k: K)
    requires k in m
    ensures Sum(m) == m[k] + Sum(m - {k})
    decreases |m|
  {
    var p :| p in m && Sum(m) == m[p] + Sum(m - {p});
    if p != k {
      SumSplit(m - {p}, k);
      SumSplit(m - {k}, p);
      assert m - {p} - {k} == m - {k} - {p};
    }
  }

  lemma SumInsert<K>(m: map<K, nat>, k: K, v: nat)
    requires k !in m
    ensures Sum(m[k := v]) == Sum(m) + v
  {
    SumSplit(m[k := v], k);
    assert m[k := v] - {k} == m;
  }

  /** `m` is split by its keys into `a` and `b`. */
  ghost predicate Splits<K(!new)>(m: map<K, nat>, a: map<K, nat>, b: map<K, nat>) {
    && (forall k :: k in m <==> k in a || k in b)
    && (forall k :: k in a ==> k !in b)
    && (forall k :: k in a ==> m[k] == a[k])
    && (forall k :: k in b ==> m[k] == b[k])
  }

  /** A sum over a partitioned key set is the sum of the parts. */
  lemma {:induction false} SumParts<K(!new)>(m: map<K, nat>, a: map<K, nat>, b: map<K, nat>)
    requires Splits(m, a, b)
    ensures Sum(m) == Sum(a) + Sum(b)
    decreases |b|
  {
    if b.Keys == {} {
      assert m == a;
    } else {
      var k :| k in b.Keys;
      SumParts(m - {k}, a, b - {k});
      SumSplit(b, k);
      SumSplit(m, k);
    }
  }
}
