/** The multiset of everything that the values of a map hold. */
module Bags {
  ghost function Pick<K, V>(m: map<K, V>): (k: K)
    requires m != map[]
    ensures k in m
  {
    assert (forall k :: k !in m) ==> m == map[];
    var k :| k in m; k
  }

  ghost function Bag<K, V>(m: map<K, V>, f: V -> multiset<nat>): multiset<nat>
    decreases m.Keys
  {
    if m == map[] then multiset{}
    else
      var k := Pick(m);
      f(m[k]) + Bag(m - {k}, f)
  }

  lemma {:induction false} BagOut<K, V>(m: map<K, V>, f: V -> multiset<nat>, k: K)
    requires k in m
    ensures Bag(m, f) == f(m[k]) + Bag(m - {k}, f)
    decreases m.Keys
  {
    var p := Pick(m);
    if p != k {
      BagOut(m - {p}, f, k);
      BagOut(m - {k}, f, p);
      assert m - {p} - {k} == m - {k} - {p};
    }
  }

  lemma BagUpdate<K, V>(m: map<K, V>, f: V -> multiset<nat>, k: K, v: V, x: nat)
    ensures Bag(m[k := v], f)[x] + (if k in m then f(m[k])[x] else 0) == Bag(m, f)[x] + f(v)[x]
  {
    BagOut(m[k := v], f, k);
    assert m[k := v] - {k} == m - {k};
    if k in m { BagOut(m, f, k); } else { assert m - {k} == m; }
  }

  lemma BagRemove<K, V>(m: map<K, V>, f: V -> multiset<nat>, k: K, x: nat)
    ensures Bag(m - {k}, f)[x] + (if k in m then f(m[k])[x] else 0) == Bag(m, f)[x]
  {
    if k in m { BagOut(m, f, k); } else { assert m - {k} == m; }
  }

  /** What one value holds is in the bag; what two values hold is in it twice. */
  lemma BagHas<K, V>(m: map<K, V>, f: V -> multiset<nat>, k: K, x: nat)
    requires k in m
    ensures Bag(m, f)[x] >= f(m[k])[x]
  {
    BagOut(m, f, k);
  }

  lemma BagHasBoth<K, V>(m: map<K, V>, f: V -> multiset<nat>, k: K, l: K, x: nat)
    requires k in m && l in m && k != l
    ensures Bag(m, f)[x] >= f(m[k])[x] + f(m[l])[x]
  {
    BagOut(m, f, k);
    BagHas(m - {k}, f, l, x);
  }
}
