/**
 * Sums over the entries of a map, in no particular key order. Python's
 * `sum(... for x in d.values())` and `sum(... for x in some_set)` visit keys in
 * an order the program never relies on; these folds pick an arbitrary key, and
 * the `Remove` lemmas show that the choice does not matter.
 *
 * The sums go over keys, not over `m.Values`: a map's values form a set, which
 * would merge two folders that happen to hold equal lists.
 */
module Sums {

  /** Some member of a non-empty set, for the loops that visit a set in no fixed order. */
  lemma Member<K>(s: set<K>) returns (x: K)
    requires s != {}
    ensures x in s
  {
    x :| x in s;
  }

  /** The sum of the numbers a map holds, one term per key. */
  ghost function SumValues<K>(m: map<K, nat>): (total: nat)
    decreases m.Keys
  {
    if m.Keys == {} then 0
    else
      var k :| k in m.Keys;
      m[k] + SumValues(m - {k})
  }

  /** Any key may be taken out first. */
  lemma {:induction false} SumValuesRemove<K>(m: map<K, nat>, k: K)
    requires k in m
    ensures SumValues(m) == m[k] + SumValues(m - {k})
    decreases m.Keys
  {
    var j :| j in m.Keys && SumValues(m) == m[j] + SumValues(m - {j});
    if j != k {
      SumValuesRemove(m - {j}, k);
      SumValuesRemove(m - {k}, j);
      assert m - {j} - {k} == m - {k} - {j};
    }
  }

  /** No term exceeds the sum. */
  lemma SumValuesBound<K>(m: map<K, nat>)
    ensures forall k :: k in m ==> m[k] <= SumValues(m)
  {
    forall k | k in m ensures m[k] <= SumValues(m) {
      SumValuesRemove(m, k);
    }
  }

  /** Adding a fresh key adds its number. */
  lemma SumValuesInsert<K>(m: map<K, nat>, k: K, v: nat)
    requires k !in m
    ensures SumValues(m[k := v]) == SumValues(m) + v
  {
    SumValuesRemove(m[k := v], k);
    assert m[k := v] - {k} == m;
  }

  /** The same, for a map given with one key more than `m` and agreeing with it elsewhere. */
  lemma SumValuesGrown<K>(m: map<K, nat>, grown: map<K, nat>, k: K)
    requires k !in m && grown.Keys == m.Keys + {k}
    requires forall j :: j in m ==> grown[j] == m[j]
    ensures SumValues(grown) == SumValues(m) + grown[k]
  {
    assert grown == m[k := grown[k]];
    SumValuesInsert(m, k, grown[k]);
  }

  /** A sum of naturals is zero exactly when every term is. */
  lemma {:induction false} SumValuesZero<K>(m: map<K, nat>)
    ensures SumValues(m) == 0 <==> forall k :: k in m ==> m[k] == 0
    decreases m.Keys
  {
    if m.Keys != {} {
      var k :| k in m.Keys;
      SumValuesRemove(m, k);
      SumValuesZero(m - {k});
      assert forall j :: j in m && j != k ==> j in m - {k};
    }
  }

  /** The sum over a disjoint union of maps is the sum of the two sums. */
  lemma {:induction false} SumValuesUnion<K>(a: map<K, nat>, b: map<K, nat>)
    requires a.Keys !! b.Keys
    ensures SumValues(a + b) == SumValues(a) + SumValues(b)
    decreases b.Keys
  {
    if b.Keys != {} {
      var k :| k in b.Keys;
      SumValuesRemove(b, k);
      SumValuesUnion(a, b - {k});
      assert a + b == (a + (b - {k}))[k := b[k]];
      SumValuesInsert(a + (b - {k}), k, b[k]);
    } else {
      assert a + b == a;
      assert SumValues(b) == 0;
    }
  }

  /** The multiset union of the multisets a map holds, one term per key. */
  ghost function BagUnion<K, V>(m: map<K, multiset<V>>): (union: multiset<V>)
    decreases m.Keys
  {
    if m.Keys == {} then multiset{}
    else
      var k :| k in m.Keys;
      m[k] + BagUnion(m - {k})
  }

  /** Any key may be taken out first. */
  lemma {:induction false} BagUnionRemove<K, V>(m: map<K, multiset<V>>, k: K)
    requires k in m
    ensures BagUnion(m) == m[k] + BagUnion(m - {k})
    decreases m.Keys
  {
    var j :| j in m.Keys && BagUnion(m) == m[j] + BagUnion(m - {j});
    if j != k {
      BagUnionRemove(m - {j}, k);
      BagUnionRemove(m - {k}, j);
      assert m - {j} - {k} == m - {k} - {j};
    }
  }

  /** Adding a fresh key adds its multiset. */
  lemma BagUnionInsert<K, V>(m: map<K, multiset<V>>, k: K, v: multiset<V>)
    requires k !in m
    ensures BagUnion(m[k := v]) == BagUnion(m) + v
  {
    BagUnionRemove(m[k := v], k);
    assert m[k := v] - {k} == m;
  }

  /** The same, for a map given with one key more than `m` and agreeing with it elsewhere. */
  lemma BagUnionGrown<K, V>(m: map<K, multiset<V>>, grown: map<K, multiset<V>>, k: K)
    requires k !in m && grown.Keys == m.Keys + {k}
    requires forall j :: j in m ==> grown[j] == m[j]
    ensures BagUnion(grown) == BagUnion(m) + grown[k]
  {
    assert grown == m[k := grown[k]];
    BagUnionInsert(m, k, grown[k]);
  }

  /** The size of a union of multisets is the sum of their sizes. */
  lemma {:induction false} BagUnionSize<K, V>(m: map<K, multiset<V>>, sizes: map<K, nat>)
    requires sizes.Keys == m.Keys
    requires forall k :: k in m ==> sizes[k] == |m[k]|
    ensures |BagUnion(m)| == SumValues(sizes)
    decreases m.Keys
  {
    if m.Keys != {} {
      var k :| k in m.Keys;
      BagUnionRemove(m, k);
      SumValuesRemove(sizes, k);
      BagUnionSize(m - {k}, sizes - {k});
    } else {
      assert sizes.Keys == {};
    }
  }
}
