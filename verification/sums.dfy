/** Sums over the entries of a map, in any order. */
module Sums {
  ghost function Sum<K, V>(entries: map<K, V>, keys: set<K>, weight: V -> nat): nat
    requires keys <= entries.Keys
  {
    if keys == {} then 0 else var k :| k in keys; weight(entries[k]) + Sum(entries, keys - {k}, weight)
  }

  /** Any entry may be added last. */
  lemma {:induction false} SumTake<K, V>(entries: map<K, V>, keys: set<K>, weight: V -> nat, key: K)
    requires keys <= entries.Keys && key in keys
    ensures Sum(entries, keys, weight) == weight(entries[key]) + Sum(entries, keys - {key}, weight)
    decreases |keys|
  {
    var k :| k in keys && Sum(entries, keys, weight) == weight(entries[k]) + Sum(entries, keys - {k}, weight);
    if k != key {
      SumTake(entries, keys - {k}, weight, key);
      SumTake(entries, keys - {key}, weight, k);
      assert keys - {k} - {key} == keys - {key} - {k};
    }
  }

  /** Entries that weigh something weigh no more than an entry of the other map. */
  lemma {:induction false} SumBound<K, V>(a: map<K, V>, rows: set<K>, f: V -> nat, b: map<K, V>, keys: set<K>,
                                          h: V -> nat)
    requires rows <= a.Keys && keys <= b.Keys
    requires forall k :: k in keys && h(b[k]) > 0 ==> k in rows && h(b[k]) <= f(a[k])
    ensures Sum(b, keys, h) <= Sum(a, rows, f)
    decreases |keys|
  {
    if keys != {} {
      var k :| k in keys;
      SumTake(b, keys, h, k);
      if h(b[k]) == 0 {
        SumBound(a, rows, f, b, keys - {k}, h);
      } else {
        SumTake(a, rows, f, k);
        SumBound(a, rows - {k}, f, b, keys - {k}, h);
      }
    }
  }

  /** A weight that exceeds another by at most a constant does so once an entry. */
  lemma {:induction false} SumExcess<K, V>(entries: map<K, V>, keys: set<K>, f: V -> nat, h: V -> nat, excess: nat)
    requires keys <= entries.Keys && forall k :: k in keys ==> h(entries[k]) <= f(entries[k]) + excess
    ensures Sum(entries, keys, h) <= Sum(entries, keys, f) + excess * |keys|
    decreases |keys|
  {
    if keys != {} {
      var k :| k in keys;
      SumTake(entries, keys, f, k);
      SumTake(entries, keys, h, k);
      SumExcess(entries, keys - {k}, f, h, excess);
      Times(excess, |keys|);
    }
  }

  lemma Times(a: int, n: int)
    ensures a * n == a * (n - 1) + a
  {
  }

  lemma SubsetCount<T>(a: set<T>, b: set<T>)
    requires a <= b
    ensures |a| <= |b|
  {
    assert b == a + (b - a);
  }
}
