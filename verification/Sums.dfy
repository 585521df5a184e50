/** Totals over the rows of a table: how many rows name a value, and how much their sizes come to. */
module Sums {

  /** What the rows of a column of sizes come to. */
  ghost function Sum<K>(column: map<K, int>): int {
    if column == map[] then 0
    else
      var k :| k in column;
      Sum(column - {k}) + column[k]
  }

  lemma {:induction false} SumWithout<K>(column: map<K, int>, k: K)
    requires k in column
    ensures Sum(column) == Sum(column - {k}) + column[k]
  {
    var first :| first in column && Sum(column) == Sum(column - {first}) + column[first];
    if first != k {
      SumWithout(column - {first}, k);
      SumWithout(column - {k}, first);
      assert column - {first} - {k} == column - {k} - {first};
    }
  }

  lemma SumWith<K>(column: map<K, int>, k: K, v: int)
    ensures Sum(column[k := v]) == Sum(column) - (if k in column then column[k] else 0) + v
  {
    SumWithout(column[k := v], k);
    assert column[k := v] - {k} == column - {k};
    if k in column { SumWithout(column, k); } else { assert column - {k} == column; }
  }

  lemma {:induction false} SumNatural<K>(column: map<K, int>)
    requires forall k :: k in column ==> column[k] >= 0
    ensures Sum(column) >= 0
    ensures forall k :: k in column ==> column[k] <= Sum(column)
    decreases |column|
  {
    forall k | k in column ensures 0 <= column[k] <= Sum(column) {
      SumWithout(column, k);
      assert |column - {k}| < |column|;
      SumNatural(column - {k});
    }
    if column == map[] { assert Sum(column) == 0; }
    else { var k :| k in column; assert column[k] <= Sum(column); }
  }

  /** Columns add up row by row. */
  lemma {:induction false} SumAdds<K>(a: map<K, int>, b: map<K, int>, both: map<K, int>)
    requires a.Keys == b.Keys == both.Keys
    requires forall k :: k in a ==> both[k] == a[k] + b[k]
    ensures Sum(both) == Sum(a) + Sum(b)
    decreases |a|
  {
    if a == map[] {
      assert b == map[] && both == map[];
    } else {
      var k :| k in a;
      assert |a - {k}| < |a|;
      SumAdds(a - {k}, b - {k}, both - {k});
      SumWithout(a, k);
      SumWithout(b, k);
      SumWithout(both, k);
    }
  }

  /** Rows that count for nothing can be left out. */
  lemma {:induction false} SumOnly<K>(column: map<K, int>, keys: set<K>)
    requires forall k :: k in column && k !in keys ==> column[k] == 0
    ensures Sum(column) == Sum(map k | k in column && k in keys :: column[k])
    decreases |column|
  {
    var inside := map k | k in column && k in keys :: column[k];
    if exists k :: k in column && k !in keys {
      var k :| k in column && k !in keys;
      assert |column - {k}| < |column|;
      SumOnly(column - {k}, keys);
      SumWithout(column, k);
      assert inside == map x | x in column - {k} && x in keys :: (column - {k})[x];
    } else {
      assert inside == column;
    }
  }

  /** Two columns that agree on some rows, and count for nothing in all others, come to the same. */
  lemma SumAlike<K>(a: map<K, int>, b: map<K, int>, keys: set<K>)
    requires (forall k :: k in a && k !in keys ==> a[k] == 0) && (forall k :: k in b && k !in keys ==> b[k] == 0)
    requires forall k :: k in keys ==> k in a && k in b && a[k] == b[k]
    ensures Sum(a) == Sum(b)
  {
    SumOnly(a, keys);
    SumOnly(b, keys);
    assert (map k | k in a && k in keys :: a[k]) == map k | k in b && k in keys :: b[k];
  }

  /** A column that differs from another only by what it holds for `keys` comes to that much more. */
  lemma {:induction false} ColumnsDiffer<K>(more: map<K, int>, less: map<K, int>, keys: set<K>, weights: map<K, int>)
    requires more.Keys == less.Keys && weights.Keys == more.Keys * keys
    requires forall k :: k in more ==> more[k] == less[k] + if k in keys then weights[k] else 0
    ensures Sum(more) == Sum(less) + Sum(weights)
    decreases |weights|
  {
    if weights == map[] {
      assert forall k :: k in more && k in keys ==> k in weights;
      assert more == less;
    } else {
      var k :| k in weights;
      assert |weights - {k}| < |weights|;
      ColumnsDiffer(more, less[k := more[k]], keys - {k}, weights - {k});
      SumWith(less, k, more[k]);
      SumWithout(weights, k);
    }
  }

  /** A part is no larger than the whole, and smaller unless it is the whole. */
  lemma {:induction false} PartIsSmaller<T>(a: set<T>, b: set<T>)
    requires a <= b
    ensures |a| <= |b| && (a != b ==> |a| < |b|)
    decreases |a|
  {
    if a != {} {
      var x :| x in a;
      assert a == (a - {x}) + {x} && b == (b - {x}) + {x};
      PartIsSmaller(a - {x}, b - {x});
    } else if b != {} {
      var x :| x in b;
      assert |b - {x}| == |b| - 1;
    }
  }
}
