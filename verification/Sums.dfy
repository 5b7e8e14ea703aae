/**
 Sums and cardinalities over finite maps and sets: what the SQL aggregates `sum`, `avg` and
 `count` compute. A column is a map from row to value; a row whose value is null is simply not a
 key, which is exactly how SQL aggregates treat nulls.
 */
module Sums {

  ghost function Pick<T>(s: set<T>): (x: T)
    requires s != {}
    ensures x in s
  {
    var x :| x in s; x
  }

  ghost function Sum<K>(column: map<K, real>): real {
    SumOver(column.Keys, column)
  }

  ghost function SumOver<K>(rows: set<K>, column: map<K, real>): real
    requires rows <= column.Keys
  {
    if rows == {} then 0.0
    else
      var k :| k in rows;
      column[k] + SumOver(rows - {k}, column)
  }

  /** Any row can be taken out first: the sum does not depend on the order of the rows. */
  lemma {:induction false} SumTake<K>(rows: set<K>, column: map<K, real>, k: K)
    requires k in rows && rows <= column.Keys
    ensures SumOver(rows, column) == column[k] + SumOver(rows - {k}, column)
    decreases rows
  {
    var j :| j in rows && SumOver(rows, column) == column[j] + SumOver(rows - {j}, column);
    if j != k {
      SumTake(rows - {j}, column, k);
      SumTake(rows - {k}, column, j);
      assert rows - {j} - {k} == rows - {k} - {j};
    }
  }

  lemma {:induction false} SumDisjoint<K>(a: set<K>, b: set<K>, column: map<K, real>)
    requires a !! b && a + b <= column.Keys
    ensures SumOver(a + b, column) == SumOver(a, column) + SumOver(b, column)
    decreases a
  {
    if a == {} {
      assert a + b == b;
    } else {
      var k :| k in a;
      SumTake(a, column, k);
      SumTake(a + b, column, k);
      assert (a + b) - {k} == (a - {k}) + b;
      SumDisjoint(a - {k}, b, column);
    }
  }

  lemma {:induction false} SumAdd<K>(rows: set<K>, a: map<K, real>, b: map<K, real>, c: map<K, real>)
    requires rows <= a.Keys && rows <= b.Keys && rows <= c.Keys
    requires forall k | k in rows :: c[k] == a[k] + b[k]
    ensures SumOver(rows, c) == SumOver(rows, a) + SumOver(rows, b)
    decreases rows
  {
    if rows == {} {
    } else {
      var k :| k in rows;
      SumTake(rows, a, k);
      SumTake(rows, b, k);
      SumTake(rows, c, k);
      SumAdd(rows - {k}, a, b, c);
    }
  }

  lemma {:induction false} SumScale<K>(rows: set<K>, a: map<K, real>, c: map<K, real>, x: real, total: real)
    requires rows <= a.Keys && rows <= c.Keys && total == SumOver(rows, a)
    requires forall k | k in rows :: c[k] == x * a[k]
    ensures SumOver(rows, c) == x * total
    decreases rows
  {
    if rows == {} {
    } else {
      var k :| k in rows;
      var rest := SumOver(rows - {k}, a);
      SumScale(rows - {k}, a, c, x, rest);
      SumTake(rows, a, k);
      SumTake(rows, c, k);
      Distribute(x, a[k], rest, total, c[k], SumOver(rows - {k}, c));
    }
  }

  lemma Distribute(x: real, a: real, s: real, total: real, xa: real, xs: real)
    requires total == a + s && xa == x * a && xs == x * s
    ensures xa + xs == x * total
  {
  }

  /** A sum only looks at the rows it is taken over. */
  lemma {:induction false} SumSame<K>(rows: set<K>, a: map<K, real>, b: map<K, real>)
    requires rows <= a.Keys && rows <= b.Keys
    requires forall k | k in rows :: a[k] == b[k]
    ensures SumOver(rows, a) == SumOver(rows, b)
    decreases rows
  {
    if rows == {} {
    } else {
      var k :| k in rows;
      SumTake(rows, a, k);
      SumTake(rows, b, k);
      SumSame(rows - {k}, a, b);
    }
  }

  lemma {:induction false} SumMonotone<K>(rows: set<K>, a: map<K, real>, b: map<K, real>)
    requires rows <= a.Keys && rows <= b.Keys
    requires forall k | k in rows :: a[k] <= b[k]
    ensures SumOver(rows, a) <= SumOver(rows, b)
    ensures SumOver(rows, a) == SumOver(rows, b) ==> forall k | k in rows :: a[k] == b[k]
    decreases rows
  {
    if rows == {} {
    } else {
      var k :| k in rows;
      SumTake(rows, a, k);
      SumTake(rows, b, k);
      SumMonotone(rows - {k}, a, b);
      assert forall j | j in rows :: j == k || j in rows - {k};
    }
  }

  /** `count(*)` is the sum of one per row. */
  ghost function Ones<T>(s: set<T>): map<T, real> { map x | x in s :: 1.0 }

  lemma {:induction false} SumOfOnes<T>(rows: set<T>, ones: map<T, real>)
    requires rows <= ones.Keys && forall k | k in rows :: ones[k] == 1.0
    ensures SumOver(rows, ones) == |rows| as real
    decreases rows
  {
    if rows == {} {
    } else {
      var x :| x in rows;
      SumTake(rows, ones, x);
      SumOfOnes(rows - {x}, ones);
    }
  }

  lemma {:induction false} SumOfEqual<T>(rows: set<T>, column: map<T, real>, value: real)
    requires rows <= column.Keys && forall x | x in rows :: column[x] == value
    ensures SumOver(rows, column) == value * |rows| as real
    decreases rows
  {
    if rows == {} {
    } else {
      var x :| x in rows;
      SumTake(rows, column, x);
      SumOfEqual(rows - {x}, column, value);
      OneMore(value, |rows|);
    }
  }

  lemma OneMore(value: real, n: nat)
    requires n > 0
    ensures value + value * (n - 1) as real == value * n as real
  {
  }

  /** The rows that `group` files under `g`. */
  ghost function Part<K, G>(rows: set<K>, group: map<K, G>, g: G): set<K>
    requires rows <= group.Keys
  {
    set k | k in rows && group[k] == g
  }

  /**
   Grouping loses nothing: summing each group and then the groups is summing every row, whatever
   the grouping, and groups without rows add nothing.
   */
  lemma {:induction false} SumGrouped<K, G>(rows: set<K>, column: map<K, real>, group: map<K, G>,
                                            groups: set<G>, sums: map<G, real>)
    requires rows <= group.Keys && rows <= column.Keys && groups <= sums.Keys
    requires forall k | k in rows :: group[k] in groups
    requires forall g | g in groups :: sums[g] == SumOver(Part(rows, group, g), column)
    ensures SumOver(groups, sums) == SumOver(rows, column)
    decreases groups
  {
    if groups == {} {
      assert rows == {};
    } else {
      var g :| g in groups;
      var part := Part(rows, group, g);
      var rest := rows - part;
      assert part + rest == rows;
      SumDisjoint(part, rest, column);
      SumTake(groups, sums, g);
      forall h | h in groups - {g} ensures Part(rest, group, h) == Part(rows, group, h) {
      }
      SumGrouped(rest, column, group, groups - {g}, sums);
    }
  }

  /** A subset with as many elements is the whole set. */
  lemma SubsetOfSameSize<T>(part: set<T>, whole: set<T>)
    requires part <= whole
    ensures |part| <= |whole|
    ensures |part| == |whole| ==> part == whole
  {
    assert whole == part + (whole - part);
    assert |whole| == |part| + |whole - part|;
  }

  /** A sum does not depend on what its rows are called. */
  lemma {:induction false} SumRenamed<A, B>(rows: set<A>, name: map<A, B>, a: map<A, real>, b: map<B, real>,
                                            renamed: set<B>)
    requires rows <= name.Keys && rows <= a.Keys && renamed <= b.Keys
    requires forall x, y | x in rows && y in rows && name[x] == name[y] :: x == y
    requires renamed == set x | x in rows :: name[x]
    requires forall x | x in rows :: b[name[x]] == a[x]
    ensures SumOver(renamed, b) == SumOver(rows, a)
    decreases rows
  {
    if rows == {} {
      assert renamed == {};
    } else {
      var x :| x in rows;
      SumTake(rows, a, x);
      SumTake(renamed, b, name[x]);
      assert renamed - {name[x]} == set y | y in rows - {x} :: name[y];
      SumRenamed(rows - {x}, name, a, b, renamed - {name[x]});
    }
  }

  function UnionOf<K, T(!new)>(keys: set<K>, sets: map<K, set<T>>): set<T>
    requires keys <= sets.Keys
  {
    set k, x | k in keys && x in sets[k] :: x
  }

  predicate Disjoint<K, T>(keys: set<K>, sets: map<K, set<T>>)
    requires keys <= sets.Keys
  {
    forall j, k | j in keys && k in keys && j != k :: sets[j] !! sets[k]
  }

  /** Sizes of sets add up to at least the size of their union, and to exactly that when none overlap. */
  lemma {:induction false} UnionBound<K, T(!new)>(keys: set<K>, sets: map<K, set<T>>, sizes: map<K, real>)
    requires keys <= sets.Keys && keys <= sizes.Keys
    requires forall k | k in keys :: sizes[k] == |sets[k]| as real
    ensures |UnionOf(keys, sets)| as real <= SumOver(keys, sizes)
    ensures |UnionOf(keys, sets)| as real == SumOver(keys, sizes) <==> Disjoint(keys, sets)
    decreases keys
  {
    if keys == {} {
      assert UnionOf(keys, sets) == {};
    } else {
      var k :| k in keys;
      var rest := UnionOf(keys - {k}, sets);
      UnionBound(keys - {k}, sets, sizes);
      SumTake(keys, sizes, k);
      assert UnionOf(keys, sets) == rest + sets[k];
      Overlap(rest, sets[k]);
      OneMoreDisjoint(keys, sets, k);
    }
  }

  lemma Overlap<T>(a: set<T>, b: set<T>)
    ensures |a + b| <= |a| + |b|
    ensures |a + b| == |a| + |b| <==> a !! b
  {
    assert a + b == a + (b - a);
    assert b == (b - a) + (a * b);
    assert |b| == |b - a| + |a * b|;
    if a !! b {
      assert a * b == {};
    }
  }

  lemma OneMoreDisjoint<K, T(!new)>(keys: set<K>, sets: map<K, set<T>>, k: K)
    requires k in keys && keys <= sets.Keys
    ensures Disjoint(keys, sets) <==> Disjoint(keys - {k}, sets) && UnionOf(keys - {k}, sets) !! sets[k]
  {
    if Disjoint(keys - {k}, sets) && UnionOf(keys - {k}, sets) !! sets[k] {
      forall j | j in keys - {k} ensures sets[j] !! sets[k] {
        assert forall x | x in sets[j] :: x in UnionOf(keys - {k}, sets);
      }
    }
  }
}
