/** `filter_dataframe(df, column, value)`: the rows whose field equals a
    value, in table order. A column is given as the projection that reads
    it from a row. */
module Filtering {

  /** The rows `x` of `rows` with `field(x) == v`, in their original order. */
  function Filter<R, V(==)>(rows: seq<R>, field: R -> V, v: V): (r: seq<R>)
    ensures |r| <= |rows|
    ensures forall i | 0 <= i < |r| :: field(r[i]) == v
  {
    if rows == [] then []
    else Filter(rows[..|rows| - 1], field, v)
         + (if field(rows[|rows| - 1]) == v then [rows[|rows| - 1]] else [])
  }

  /** `a` is `b` with some elements left out, the rest kept in order. */
  predicate IsSubsequence<T(==)>(a: seq<T>, b: seq<T>)
    decreases |b|
  {
    if a == [] then true
    else if b == [] then false
    else if a[|a| - 1] == b[|b| - 1] then IsSubsequence(a[..|a| - 1], b[..|b| - 1])
    else IsSubsequence(a, b[..|b| - 1])
  }

  /** Filtering splits over concatenation: the rows of a combined table that
      match are those of the first part followed by those of the second. */
  lemma {:induction false} FilterAppend<R, V>(a: seq<R>, b: seq<R>, field: R -> V, v: V)
    ensures Filter(a + b, field, v) == Filter(a, field, v) + Filter(b, field, v)
  {
    if b != [] {
      var ab := a + b;
      assert ab[..|ab| - 1] == a + b[..|b| - 1];
      FilterAppend(a, b[..|b| - 1], field, v);
    } else {
      assert a + b == a;
    }
  }

  /** The result keeps every matching row as often as the input holds it and
      no other row. */
  lemma {:induction false} FilterCounts<R, V>(rows: seq<R>, field: R -> V, v: V, x: R)
    ensures multiset(Filter(rows, field, v))[x] == if field(x) == v then multiset(rows)[x] else 0
  {
    if rows != [] {
      var init, last := rows[..|rows| - 1], rows[|rows| - 1];
      assert rows == init + [last];
      FilterCounts(init, field, v, x);
    }
  }

  /** The result is a subsequence of the input: it keeps the table order. */
  lemma {:induction false} FilterIsSubsequence<R, V>(rows: seq<R>, field: R -> V, v: V)
    ensures IsSubsequence(Filter(rows, field, v), rows)
  {
    if rows != [] {
      var init, last := rows[..|rows| - 1], rows[|rows| - 1];
      var f := Filter(init, field, v);
      FilterIsSubsequence(init, field, v);
      if field(last) == v {
        var r := f + [last];
        assert r[..|r| - 1] == f;
      } else {
        assert Filter(rows, field, v) == f;
        if f != [] {
          assert field(f[|f| - 1]) == v;
          assert f[|f| - 1] != last;
        }
      }
    }
  }

  /** Filtering what is already filtered changes nothing. */
  lemma FilterIdempotent<R, V>(rows: seq<R>, field: R -> V, v: V)
    ensures Filter(Filter(rows, field, v), field, v) == Filter(rows, field, v)
  {
    FilterKeepsMatching(Filter(rows, field, v), field, v);
  }

  /** A table whose every row matches is its own filter. */
  lemma {:induction false} FilterKeepsMatching<R, V>(rows: seq<R>, field: R -> V, v: V)
    requires forall i | 0 <= i < |rows| :: field(rows[i]) == v
    ensures Filter(rows, field, v) == rows
  {
    if rows != [] {
      FilterKeepsMatching(rows[..|rows| - 1], field, v);
    }
  }

  /** Filters on two fields commute: the order of a filter chain does not
      matter. */
  lemma {:induction false} FiltersCommute<R, V, W>(rows: seq<R>, f: R -> V, v: V, g: R -> W, w: W)
    ensures Filter(Filter(rows, f, v), g, w) == Filter(Filter(rows, g, w), f, v)
  {
    if rows != [] {
      var init, last := rows[..|rows| - 1], rows[|rows| - 1];
      FiltersCommute(init, f, v, g, w);
      FilterAppend(Filter(init, f, v), if f(last) == v then [last] else [], g, w);
      FilterAppend(Filter(init, g, w), if g(last) == w then [last] else [], f, v);
    }
  }
}
