/**
 * Sums over Go maps. Go visits a map in an unspecified order, so a sum over
 * a map is defined by picking an arbitrary key; `MapSumRemove` shows that
 * the pick does not matter.
 */
module Sums {

  /** The sum of the values of `m`. */
  ghost function MapSum<K>(m: map<K, int>): int
    decreases |m|
  {
    if m == map[] then 0
    else
      var k :| k in m;
      assert |m - {k}| == |m| - 1 by {
        assert (m - {k}).Keys == m.Keys - {k};
      }
      m[k] + MapSum(m - {k})
  }

  /** All values are non-negative. */
  ghost predicate NonNegativeValues<K>(m: map<K, int>) {
    forall k :: k in m ==> m[k] >= 0
  }

  /** The entries of `m` whose keys are in `keys`. */
  function Restrict<K>(m: map<K, int>, keys: set<K>): (r: map<K, int>)
    ensures r.Keys == m.Keys * keys
    ensures forall k :: k in r ==> r[k] == m[k]
  {
    map k | k in m && k in keys :: m[k]
  }

  /** Any key may be taken out first: the sum does not depend on visiting order. */
  lemma {:induction false} MapSumRemove<K>(m: map<K, int>, k: K)
    requires k in m
    ensures MapSum(m) == m[k] + MapSum(m - {k})
    decreases |m|
  {
    var j :| j in m && MapSum(m) == m[j] + MapSum(m - {j});
    if j != k {
      var mj, mk := m - {j}, m - {k};
      assert |mj| == |m| - 1 by { assert mj.Keys == m.Keys - {j}; }
      assert |mk| == |m| - 1 by { assert mk.Keys == m.Keys - {k}; }
      MapSumRemove(mj, k);
      MapSumRemove(mk, j);
      assert mj - {k} == mk - {j};
    }
  }

  /** Adding a fresh key adds its value. */
  lemma MapSumInsert<K>(m: map<K, int>, k: K, v: int)
    requires k !in m
    ensures MapSum(m[k := v]) == v + MapSum(m)
  {
    MapSumRemove(m[k := v], k);
    assert m[k := v] - {k} == m;
  }

  /** Overwriting a key replaces its value in the sum. */
  lemma MapSumUpdate<K>(m: map<K, int>, k: K, v: int)
    requires k in m
    ensures MapSum(m[k := v]) == v - m[k] + MapSum(m)
  {
    MapSumRemove(m[k := v], k);
    MapSumRemove(m, k);
    assert m[k := v] - {k} == m - {k};
  }

  /** A sum of non-negative values is non-negative. */
  lemma {:induction false} MapSumNonNegative<K>(m: map<K, int>)
    requires NonNegativeValues(m)
    ensures MapSum(m) >= 0
    decreases |m|
  {
    if m != map[] {
      var k :| k in m;
      MapSumRemove(m, k);
      assert |m - {k}| == |m| - 1 by { assert (m - {k}).Keys == m.Keys - {k}; }
      MapSumNonNegative(m - {k});
    }
  }

  /** With non-negative values, dropping entries can only lower the sum. */
  lemma {:induction false} MapSumRestrictBounds<K>(m: map<K, int>, keys: set<K>)
    requires NonNegativeValues(m)
    ensures 0 <= MapSum(Restrict(m, keys)) <= MapSum(m)
    decreases |m|
  {
    MapSumNonNegative(Restrict(m, keys));
    if m != map[] {
      var k :| k in m;
      var rest := m - {k};
      assert |rest| == |m| - 1 by { assert rest.Keys == m.Keys - {k}; }
      MapSumRestrictBounds(rest, keys);
      MapSumRemove(m, k);
      if k in keys {
        assert Restrict(m, keys) == Restrict(rest, keys)[k := m[k]];
        MapSumInsert(Restrict(rest, keys), k, m[k]);
      } else {
        assert Restrict(m, keys) == Restrict(rest, keys);
      }
    }
  }
}
