/** The column aggregates the summaries are built from, as folds over a
    table's rows: `sum`, `nunique`, and `groupby(key)[column].sum()` /
    `.nunique()`. A column is given as the projection that reads it from a
    row; a group-by result is a map from each group key to its aggregate
    (the order in which pandas lists the groups is not modelled). */
module Folds {
  import opened Filtering

  // ---------------------------------------------------------------------
  // Sums
  // ---------------------------------------------------------------------

  /** `df[column].sum()` over a decimal column (0 for an empty table). */
  function Sum<R>(rows: seq<R>, f: R -> real): real {
    if rows == [] then 0.0 else Sum(rows[..|rows| - 1], f) + f(rows[|rows| - 1])
  }

  /** `df[column].sum()` over an integer column. */
  function SumInt<R>(rows: seq<R>, f: R -> int): int {
    if rows == [] then 0 else SumInt(rows[..|rows| - 1], f) + f(rows[|rows| - 1])
  }

  /** Sums add up over disjoint parts of a table. */
  lemma {:induction false} SumAppend<R>(a: seq<R>, b: seq<R>, f: R -> real)
    ensures Sum(a + b, f) == Sum(a, f) + Sum(b, f)
  {
    if b != [] {
      var ab := a + b;
      assert ab[..|ab| - 1] == a + b[..|b| - 1];
      SumAppend(a, b[..|b| - 1], f);
    } else {
      assert a + b == a;
    }
  }

  lemma {:induction false} SumIntAppend<R>(a: seq<R>, b: seq<R>, f: R -> int)
    ensures SumInt(a + b, f) == SumInt(a, f) + SumInt(b, f)
  {
    if b != [] {
      var ab := a + b;
      assert ab[..|ab| - 1] == a + b[..|b| - 1];
      SumIntAppend(a, b[..|b| - 1], f);
    } else {
      assert a + b == a;
    }
  }

  /** A column that is at most another row by row sums to at most the other's
      sum. */
  lemma {:induction false} SumMonotone<R>(rows: seq<R>, f: R -> real, g: R -> real)
    requires forall i | 0 <= i < |rows| :: f(rows[i]) <= g(rows[i])
    ensures Sum(rows, f) <= Sum(rows, g)
  {
    if rows != [] {
      SumMonotone(rows[..|rows| - 1], f, g);
    }
  }

  /** A column of non-negative values has a non-negative sum. */
  lemma {:induction false} SumNonNegative<R>(rows: seq<R>, f: R -> real)
    requires forall i | 0 <= i < |rows| :: f(rows[i]) >= 0.0
    ensures Sum(rows, f) >= 0.0
  {
    if rows != [] {
      SumNonNegative(rows[..|rows| - 1], f);
    }
  }

  /** A column of zeros sums to zero. */
  lemma {:induction false} SumZero<R>(rows: seq<R>, f: R -> real)
    requires forall i | 0 <= i < |rows| :: f(rows[i]) == 0.0
    ensures Sum(rows, f) == 0.0
  {
    if rows != [] {
      SumZero(rows[..|rows| - 1], f);
    }
  }

  /** One more row adds its value to the sum. */
  lemma SumSnoc<R>(rows: seq<R>, x: R, f: R -> real)
    ensures Sum(rows + [x], f) == Sum(rows, f) + f(x)
  {
    assert (rows + [x])[..|rows|] == rows;
  }

  /** When every row has one of two key values, the sums of the two
      filtered parts make up the sum of the whole column. */
  lemma {:induction false} SumSplit<R, K>(rows: seq<R>, key: R -> K, a: K, b: K, f: R -> real)
    requires a != b
    requires forall i | 0 <= i < |rows| :: key(rows[i]) == a || key(rows[i]) == b
    ensures Sum(Filter(rows, key, a), f) + Sum(Filter(rows, key, b), f) == Sum(rows, f)
  {
    if rows != [] {
      var init, last := rows[..|rows| - 1], rows[|rows| - 1];
      assert forall i | 0 <= i < |init| :: init[i] == rows[i];
      SumSplit(init, key, a, b, f);
      var fa, fb := Filter(init, key, a), Filter(init, key, b);
      if key(last) == a {
        assert Filter(rows, key, a) == fa + [last] && Filter(rows, key, b) == fb;
        SumSnoc(fa, last, f);
      } else {
        assert Filter(rows, key, b) == fb + [last] && Filter(rows, key, a) == fa;
        SumSnoc(fb, last, f);
      }
    }
  }

  // ---------------------------------------------------------------------
  // Distinct values
  // ---------------------------------------------------------------------

  /** The distinct values of a column, `set(df[column])`; `nunique` is its
      size. */
  function Values<R, V(==)>(rows: seq<R>, f: R -> V): (vs: set<V>)
    ensures forall i | 0 <= i < |rows| :: f(rows[i]) in vs
    ensures forall v | v in vs :: exists i | 0 <= i < |rows| :: f(rows[i]) == v
  {
    set i | 0 <= i < |rows| :: f(rows[i])
  }

  lemma ValuesAppend<R, V>(a: seq<R>, b: seq<R>, f: R -> V)
    ensures Values(a + b, f) == Values(a, f) + Values(b, f)
  {
    var ab := a + b;
    forall v | v in Values(a, f) ensures v in Values(ab, f) {
      var i :| 0 <= i < |a| && f(a[i]) == v;
      assert ab[i] == a[i];
    }
    forall v | v in Values(b, f) ensures v in Values(ab, f) {
      var i :| 0 <= i < |b| && f(b[i]) == v;
      assert ab[|a| + i] == b[i];
    }
    forall v | v in Values(ab, f) ensures v in Values(a, f) + Values(b, f) {
      var i :| 0 <= i < |ab| && f(ab[i]) == v;
      if i < |a| {
        assert ab[i] == a[i];
      } else {
        assert ab[i] == b[i - |a|];
      }
    }
  }

  /** A column has at most as many distinct values as the table has rows. */
  lemma {:induction false} ValuesBound<R, V>(rows: seq<R>, f: R -> V)
    ensures |Values(rows, f)| <= |rows|
  {
    if rows != [] {
      var init, last := rows[..|rows| - 1], rows[|rows| - 1];
      assert rows == init + [last];
      ValuesAppend(init, [last], f);
      ValuesSingleton(last, f);
      ValuesBound(init, f);
    }
  }

  /** Only an empty table has no values. */
  lemma ValuesEmpty<R, V>(rows: seq<R>, f: R -> V)
    ensures Values(rows, f) == {} <==> rows == []
  {
    if rows != [] {
      assert f(rows[0]) in Values(rows, f);
    }
  }

  lemma ValuesSingleton<R, V>(x: R, f: R -> V)
    ensures Values([x], f) == {f(x)}
  {
    assert [x][0] == x;
  }

  /** A row whose value is already present adds no new distinct value. */
  lemma ValuesRepeat<R, V>(rows: seq<R>, x: R, f: R -> V)
    requires exists i | 0 <= i < |rows| :: f(rows[i]) == f(x)
    ensures Values(rows + [x], f) == Values(rows, f)
  {
    ValuesAppend(rows, [x], f);
    ValuesSingleton(x, f);
  }

  /** No row of the table carries a value that is not among its values, so
      filtering on it finds nothing. */
  lemma {:induction false} FilterMissing<R, K>(rows: seq<R>, key: R -> K, k: K)
    requires k !in Values(rows, key)
    ensures Filter(rows, key, k) == []
  {
    if rows != [] {
      var init := rows[..|rows| - 1];
      assert Values(init, key) <= Values(rows, key) by {
        forall v | v in Values(init, key) ensures v in Values(rows, key) {
          var i :| 0 <= i < |init| && key(init[i]) == v;
          assert rows[i] == init[i];
        }
      }
      FilterMissing(init, key, k);
    }
  }

  lemma SubsetCard<T>(a: set<T>, b: set<T>)
    requires a <= b
    ensures |a| <= |b|
  {
    assert b == a + (b - a);
  }

  /** A filtered table has no value its source lacks, so no more distinct
      values. */
  lemma FilterValuesBound<R, K, V>(rows: seq<R>, key: R -> K, k: K, f: R -> V)
    ensures Values(Filter(rows, key, k), f) <= Values(rows, f)
    ensures |Values(Filter(rows, key, k), f)| <= |Values(rows, f)|
  {
    var fr := Filter(rows, key, k);
    forall v | v in Values(fr, f) ensures v in Values(rows, f) {
      var i :| 0 <= i < |fr| && f(fr[i]) == v;
      FilterCounts(rows, key, k, fr[i]);
      assert fr[i] in multiset(fr);
      assert fr[i] in rows;
    }
    SubsetCard(Values(fr, f), Values(rows, f));
  }

  // ---------------------------------------------------------------------
  // Group-by sums
  // ---------------------------------------------------------------------

  /** `df.groupby(key)[column].sum()`, accumulated row by row. */
  function GroupSum<R, K(==)>(rows: seq<R>, key: R -> K, f: R -> real): map<K, real> {
    if rows == [] then map[]
    else
      var m := GroupSum(rows[..|rows| - 1], key, f);
      var x := rows[|rows| - 1];
      m[key(x) := (if key(x) in m then m[key(x)] else 0.0) + f(x)]
  }

  /** The groups are exactly the distinct values of the key column. */
  lemma {:induction false} GroupSumKeys<R, K>(rows: seq<R>, key: R -> K, f: R -> real)
    ensures GroupSum(rows, key, f).Keys == Values(rows, key)
  {
    if rows != [] {
      var init, last := rows[..|rows| - 1], rows[|rows| - 1];
      assert rows == init + [last];
      GroupSumKeys(init, key, f);
      ValuesAppend(init, [last], key);
      ValuesSingleton(last, key);
    }
  }

  /** Each group holds the sum of its own rows: the group-by agrees with
      filtering on the key and summing. */
  lemma {:induction false} GroupSumAt<R, K>(rows: seq<R>, key: R -> K, f: R -> real, k: K)
    requires k in GroupSum(rows, key, f)
    ensures GroupSum(rows, key, f)[k] == Sum(Filter(rows, key, k), f)
  {
    var init, last := rows[..|rows| - 1], rows[|rows| - 1];
    var m := GroupSum(init, key, f);
    var fi := Filter(init, key, k);
    if key(last) == k {
      assert Filter(rows, key, k) == fi + [last];
      assert (fi + [last])[..|fi|] == fi;
      if k in m {
        GroupSumAt(init, key, f, k);
      } else {
        GroupSumKeys(init, key, f);
        FilterMissing(init, key, k);
      }
    } else {
      assert Filter(rows, key, k) == fi;
      GroupSumAt(init, key, f, k);
    }
  }

  /** The total of the values of a map with real values. */
  ghost function MapTotal<K>(m: map<K, real>): real
    decreases |m|
  {
    if m == map[] then 0.0
    else
      var k :| k in m;
      assert |(m - {k}).Keys| < |m.Keys| by {
        assert (m - {k}).Keys == m.Keys - {k};
      }
      m[k] + MapTotal(m - {k})
  }

  /** The total does not depend on the key taken out first. */
  lemma MapTotalRemove<K>(m: map<K, real>, k: K)
    requires k in m
    ensures MapTotal(m) == m[k] + MapTotal(m - {k})
    decreases |m|
  {
    var j :| j in m && MapTotal(m) == m[j] + MapTotal(m - {j});
    if j != k {
      assert (m - {j}).Keys == m.Keys - {j};
      assert (m - {k}).Keys == m.Keys - {k};
      MapTotalRemove(m - {j}, k);
      MapTotalRemove(m - {k}, j);
      assert m - {j} - {k} == m - {k} - {j};
    }
  }

  /** The groups of a group-by sum add up to the sum of the whole column. */
  lemma {:induction false} GroupSumTotal<R, K>(rows: seq<R>, key: R -> K, f: R -> real)
    ensures MapTotal(GroupSum(rows, key, f)) == Sum(rows, f)
  {
    if rows != [] {
      var init, last := rows[..|rows| - 1], rows[|rows| - 1];
      var m := GroupSum(init, key, f);
      var k := key(last);
      var m' := GroupSum(rows, key, f);
      GroupSumTotal(init, key, f);
      MapTotalRemove(m', k);
      if k in m {
        MapTotalRemove(m, k);
        assert m' - {k} == m - {k};
      } else {
        assert m' - {k} == m;
      }
    }
  }

  // ---------------------------------------------------------------------
  // Group-by distinct counts
  // ---------------------------------------------------------------------

  /** The set of distinct values of `f` within each group of `key`,
      accumulated row by row. */
  function GroupValues<R, K(==), V(==)>(rows: seq<R>, key: R -> K, f: R -> V): map<K, set<V>> {
    if rows == [] then map[]
    else
      var m := GroupValues(rows[..|rows| - 1], key, f);
      var x := rows[|rows| - 1];
      m[key(x) := (if key(x) in m then m[key(x)] else {}) + {f(x)}]
  }

  /** `df.groupby(key)[column].nunique()`. */
  function GroupDistinctCount<R, K(==), V(==)>(rows: seq<R>, key: R -> K, f: R -> V): map<K, nat> {
    var m := GroupValues(rows, key, f);
    map k | k in m :: |m[k]|
  }

  lemma {:induction false} GroupValuesKeys<R, K, V>(rows: seq<R>, key: R -> K, f: R -> V)
    ensures GroupValues(rows, key, f).Keys == Values(rows, key)
  {
    if rows != [] {
      var init, last := rows[..|rows| - 1], rows[|rows| - 1];
      assert rows == init + [last];
      GroupValuesKeys(init, key, f);
      ValuesAppend(init, [last], key);
      ValuesSingleton(last, key);
    }
  }

  /** Each group holds the distinct values of its own rows. */
  lemma {:induction false} GroupValuesAt<R, K, V>(rows: seq<R>, key: R -> K, f: R -> V, k: K)
    requires k in GroupValues(rows, key, f)
    ensures GroupValues(rows, key, f)[k] == Values(Filter(rows, key, k), f)
  {
    var init, last := rows[..|rows| - 1], rows[|rows| - 1];
    var m := GroupValues(init, key, f);
    var fi := Filter(init, key, k);
    if key(last) == k {
      assert Filter(rows, key, k) == fi + [last];
      ValuesAppend(fi, [last], f);
      ValuesSingleton(last, f);
      if k in m {
        GroupValuesAt(init, key, f, k);
      } else {
        GroupValuesKeys(init, key, f);
        FilterMissing(init, key, k);
        assert fi + [last] == [last];
      }
    } else {
      assert Filter(rows, key, k) == fi;
      GroupValuesAt(init, key, f, k);
    }
  }

  /** The distinct count of a group is the distinct count of the rows that
      filtering on its key selects. */
  lemma GroupDistinctCountAt<R, K, V>(rows: seq<R>, key: R -> K, f: R -> V, k: K)
    ensures k in GroupDistinctCount(rows, key, f) <==> k in Values(rows, key)
    ensures k in GroupDistinctCount(rows, key, f)
            ==> GroupDistinctCount(rows, key, f)[k] == |Values(Filter(rows, key, k), f)|
  {
    GroupValuesKeys(rows, key, f);
    if k in GroupValues(rows, key, f) {
      GroupValuesAt(rows, key, f, k);
    }
  }
}
