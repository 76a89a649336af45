/** Totals over finite maps: the device-wide bounds add amounts up across channels and across payment hashes. */
module Sums {

  ghost function Sum<K>(m: map<K, int>): int
    decreases m.Keys
  {
    if m == map[] then 0 else
      var k :| k in m;
      m[k] + Sum(m - {k})
  }

  function Get<K>(m: map<K, nat>, k: K): nat {
    if k in m then m[k] else 0
  }

  /** The total does not depend on the order entries are taken in. */
  lemma {:induction false} Pull<K>(m: map<K, int>, k: K)
    requires k in m
    ensures Sum(m) == m[k] + Sum(m - {k})
    decreases m.Keys
  {
    var first :| first in m && Sum(m) == m[first] + Sum(m - {first});
    if first != k {
      Pull(m - {first}, k);
      Pull(m - {k}, first);
      assert (m - {first}) - {k} == (m - {k}) - {first};
    }
  }

  lemma {:induction false} Update<K>(m: map<K, int>, k: K, v: int)
    ensures Sum(m[k := v]) == Sum(m) + v - (if k in m then m[k] else 0)
  {
    Pull(m[k := v], k);
    assert m[k := v] - {k} == m - {k};
    if k in m {
      Pull(m, k);
    } else {
      assert m - {k} == m;
    }
  }

  /** Replacing one entry keeps the total of the rest. */
  lemma {:induction false} Replace<K>(m: map<K, int>, k: K, v: int)
    requires k in m
    ensures Sum(m) == m[k] + Sum(m - {k})
    ensures Sum(m[k := v]) == v + Sum(m - {k})
  {
    Pull(m, k);
    Update(m, k, v);
  }

  /** Entries may grow, and new ones may appear as long as they are not negative. */
  lemma {:induction false} Monotone<K>(a: map<K, int>, b: map<K, int>)
    requires a.Keys <= b.Keys
    requires forall k :: k in a ==> a[k] <= b[k]
    requires forall k :: k in b && k !in a ==> 0 <= b[k]
    ensures Sum(a) <= Sum(b)
    decreases b.Keys
  {
    if b != map[] {
      var k :| k in b;
      Pull(b, k);
      if k in a {
        Pull(a, k);
      } else {
        assert a - {k} == a;
      }
      Monotone(a - {k}, b - {k});
    }
  }

  lemma {:induction false} Plus<K>(a: map<K, int>, b: map<K, int>, c: map<K, int>)
    requires a.Keys == b.Keys == c.Keys
    requires forall k :: k in c ==> c[k] == a[k] + b[k]
    ensures Sum(c) == Sum(a) + Sum(b)
    decreases c.Keys
  {
    if c != map[] {
      var k :| k in c;
      Pull(a, k);
      Pull(b, k);
      Pull(c, k);
      Plus(a - {k}, b - {k}, c - {k});
    }
  }

  /** What a map holds under some keys, zero where it has no entry. */
  ghost function Over<K>(m: map<K, nat>, keys: set<K>): map<K, int> {
    map k | k in keys :: Get(m, k)
  }

  /** Entries of zero can be added, and entries outside `keys` must be zero to be dropped. */
  lemma {:induction false} OverKeys<K>(m: map<K, nat>, keys: set<K>)
    requires forall k :: k in m && k !in keys ==> m[k] == 0
    ensures Sum(Over(m, keys)) == Sum(m)
    decreases keys + m.Keys
  {
    if keys + m.Keys != {} {
      var k :| k in keys + m.Keys;
      OverKeys(m - {k}, keys - {k});
      assert Over(m, keys) - {k} == Over(m - {k}, keys - {k});
      if k in keys {
        Pull(Over(m, keys), k);
      } else {
        assert Over(m, keys) - {k} == Over(m, keys);
      }
      if k in m {
        Pull(m, k);
      } else {
        assert m - {k} == m;
      }
    } else {
      assert Over(m, keys) == map[];
    }
  }

  /** A row total is at most what the column bounds allow: the sums are exchanged. */
  lemma {:induction false} Exchange<I, K>(table: map<I, map<K, int>>, keys: set<K>, bounds: map<K, int>)
    requires bounds.Keys == keys
    requires forall i :: i in table ==> table[i].Keys == keys
    requires forall k :: k in keys ==> Sum(Column(table, keys, k)) <= bounds[k]
    ensures Sum(RowSums(table)) <= Sum(bounds)
    decreases keys
  {
    if keys == {} {
      ZeroRows(table);
      assert bounds == map[];
    } else {
      var k :| k in keys;
      SplitColumn(table, keys, k);
      Pull(bounds, k);
      ColumnsKept(table, keys, k);
      Exchange(Without(table, k), keys - {k}, bounds - {k});
    }
  }

  lemma {:induction false} ColumnsKept<I, K>(table: map<I, map<K, int>>, keys: set<K>, k: K)
    requires forall i :: i in table ==> table[i].Keys == keys
    requires k in keys
    ensures forall j :: j in keys - {k} ==> Column(Without(table, k), keys - {k}, j) == Column(table, keys, j)
  {
  }

  lemma {:induction false} SplitColumn<I, K>(table: map<I, map<K, int>>, keys: set<K>, k: K)
    requires forall i :: i in table ==> table[i].Keys == keys
    requires k in keys
    ensures Sum(RowSums(table)) == Sum(Column(table, keys, k)) + Sum(RowSums(Without(table, k)))
  {
    forall i | i in table
      ensures RowSums(table)[i] == Column(table, keys, k)[i] + RowSums(Without(table, k))[i]
    {
      Pull(table[i], k);
    }
    Plus(Column(table, keys, k), RowSums(Without(table, k)), RowSums(table));
  }

  ghost function Without<I, K>(table: map<I, map<K, int>>, k: K): map<I, map<K, int>> {
    map i | i in table :: table[i] - {k}
  }

  ghost function Column<I, K>(table: map<I, map<K, int>>, keys: set<K>, k: K): (c: map<I, int>)
    requires forall i :: i in table ==> table[i].Keys == keys
    requires k in keys
  {
    map i | i in table :: table[i][k]
  }

  ghost function RowSums<I, K>(table: map<I, map<K, int>>): map<I, int> {
    map i | i in table :: Sum(table[i])
  }

  lemma {:induction false} ZeroRows<I, K>(table: map<I, map<K, int>>)
    requires forall i :: i in table ==> table[i].Keys == {}
    ensures Sum(RowSums(table)) == 0
    decreases table.Keys
  {
    if table != map[] {
      var i :| i in table;
      Pull(RowSums(table), i);
      assert RowSums(table) - {i} == RowSums(table - {i});
      ZeroRows(table - {i});
    } else {
      assert RowSums(table) == map[];
    }
  }
}
