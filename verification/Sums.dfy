/** Totals over the values of a finite map. */
module Sums {
  /** The order of addition does not matter: see `SumWithout`. */
  ghost function Sum<K>(m: map<K, nat>): nat
    decreases |m|
  {
    if m == map[] then 0
    else
      var k :| k in m;
      m[k] + Sum(m - {k})
  }

  /** Any key may be taken out first. */
  lemma {:induction false} SumWithout<K>(m: map<K, nat>, k: K)
    requires k in m
    ensures Sum(m) == m[k] + Sum(m - {k})
    decreases |m|
  {
    var first :| first in m && Sum(m) == m[first] + Sum(m - {first});
    if first != k {
      SumWithout(m - {first}, k);
      SumWithout(m - {k}, first);
      assert m - {first} - {k} == m - {k} - {first};
    }
  }

  lemma SumPut<K>(m: map<K, nat>, k: K, v: nat)
    ensures Sum(m[k := v]) == Sum(m - {k}) + v
    ensures k in m ==> Sum(m[k := v]) == Sum(m) - m[k] + v
    ensures k !in m ==> Sum(m[k := v]) == Sum(m) + v
  {
    SumWithout(m[k := v], k);
    assert m[k := v] - {k} == m - {k};
    if k in m { SumWithout(m, k); } else { assert m - {k} == m; }
  }

  /** Smaller values under fewer keys never add up to more. */
  lemma {:induction false} SumMonotone<K>(m: map<K, nat>, m': map<K, nat>)
    requires m'.Keys <= m.Keys && forall k :: k in m' ==> m'[k] <= m[k]
    ensures Sum(m') <= Sum(m)
    decreases |m|
  {
    if m' == map[] {
    } else {
      var k :| k in m';
      SumWithout(m, k);
      SumWithout(m', k);
      SumMonotone(m - {k}, m' - {k});
    }
  }

  /** Two maps without a common key. */
  lemma {:induction false} SumUnion<K>(a: map<K, nat>, b: map<K, nat>)
    requires forall k :: k in a ==> k !in b
    ensures Sum(a + b) == Sum(a) + Sum(b)
    decreases |b|
  {
    if b == map[] {
      assert a + b == a;
    } else {
      var k :| k in b;
      UnionLess(a, b, k);
      SumWithout(b, k);
      SumWithout(a + b, k);
      SumUnion(a, b - {k});
    }
  }

  lemma UnionLess<K>(a: map<K, nat>, b: map<K, nat>, k: K)
    requires k !in a && k in b
    ensures k in a + b && (a + b)[k] == b[k] && (a + b) - {k} == a + (b - {k})
  {}

  function Restrict<K, V>(m: map<K, V>, keys: set<K>): map<K, V> {
    map k | k in m && k in keys :: m[k]
  }

  /** The sum over some of the keys. */
  ghost function Part<K>(m: map<K, nat>, keys: set<K>): nat { Sum(Restrict(m, keys)) }

  /** Adding up key by key. */
  lemma PartMore<K>(m: map<K, nat>, keys: set<K>, k: K)
    requires k !in keys
    ensures Part(m, keys + {k}) == Part(m, keys) + if k in m then m[k] else 0
    ensures Part(m, keys + {k}) <= Sum(m)
  {
    var part := Restrict(m, keys);
    if k in m {
      SumPut(part, k, m[k]);
      assert Restrict(m, keys + {k}) == part[k := m[k]];
    } else {
      assert Restrict(m, keys + {k}) == part;
    }
    SumMonotone(m, Restrict(m, keys + {k}));
  }

  lemma PartNone<K>(m: map<K, nat>)
    ensures Part(m, {}) == 0
  {
    assert Restrict(m, {}) == map[];
  }

  lemma PartAll<K>(m: map<K, nat>, keys: set<K>)
    requires m.Keys <= keys
    ensures Part(m, keys) == Sum(m)
  {
    assert Restrict(m, keys) == m;
  }
}
