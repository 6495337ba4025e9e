/**
 * The dataset every fold generator works on: an ordered, duplicate-free row index and, per row, the
 * columns the fold generators read (the target, the one-dimensional reduction `X_1DIM`, the fold
 * label and the point coordinates `x`, `y`). Also the error outcomes of the fold generators.
 */
module Frames {
  import opened Seqs

  /** A row label of the dataset (and a node label of the adjacency matrix). */
  type Idx = int

  /** A value of the fold column. */
  type FoldLabel = int

  /** The fold label of rows that belong to no fold. */
  const NullFold: FoldLabel := -1

  datatype Row = Row(target: real, reduced: real, fold: FoldLabel, x: real, y: real)

  /** The numeric columns a semivariogram is computed on: the target or `X_1DIM`. */
  datatype Attribute = Target | Reduced

  function Value(r: Row, a: Attribute): real
  {
    match a
    case Target => r.target
    case Reduced => r.reduced
  }

  datatype Dataset = Dataset(index: seq<Idx>, rows: map<Idx, Row>)

  /** A data frame index: duplicate-free, and exactly the labels that have a row. */
  ghost predicate WellFormed(d: Dataset)
  {
    Distinct(d.index) && Elems(d.index) == d.rows.Keys
  }

  /** The Python exceptions the fold generators can raise, and a loop that never ends. */
  datatype Error = KeyError | ZeroDivisionError | UnboundLocalError | IndexError | Diverges

  datatype Outcome<T> = Ok(value: T) | Fail(error: Error)

  datatype Option<T> = None | Some(value: T)

  /** `df.loc[ids, attribute]` as a list of values. */
  function Values(d: Dataset, ids: seq<Idx>, a: Attribute): (r: seq<real>)
    requires forall i :: i in ids ==> i in d.rows
    ensures |r| == |ids|
    ensures forall k :: 0 <= k < |ids| ==> ids[k] in d.rows && r[k] == Value(d.rows[ids[k]], a)
  {
    var r := seq(|ids|, k requires 0 <= k < |ids| => if ids[k] in d.rows then Value(d.rows[ids[k]], a) else 0.0);
    forall k | 0 <= k < |ids| ensures ids[k] in d.rows && r[k] == Value(d.rows[ids[k]], a) {
      var i := ids[k];
      assert i in ids;
      assert i in d.rows;
      assert r[k] == Value(d.rows[i], a);
    }
    r
  }

  /** Reading a column over two lists of rows one after the other reads it over their concatenation. */
  lemma ValuesConcat(d: Dataset, a: seq<Idx>, b: seq<Idx>, x: Attribute)
    requires forall i :: i in a ==> i in d.rows
    requires forall i :: i in b ==> i in d.rows
    ensures Values(d, a + b, x) == Values(d, a, x) + Values(d, b, x)
  {
    var l, r := Values(d, a, x), Values(d, b, x);
    forall k | 0 <= k < |a| + |b| ensures Values(d, a + b, x)[k] == (l + r)[k] {
      if k < |a| {
        assert (a + b)[k] == a[k];
      } else {
        assert (a + b)[k] == b[k - |a|];
      }
    }
  }

  /** `df.loc[ids, fold_col]` as a list of values. */
  function FoldColumn(d: Dataset, ids: seq<Idx>): (r: seq<FoldLabel>)
    requires forall i :: i in ids ==> i in d.rows
    decreases |ids|
    ensures |r| == |ids|
    ensures forall k :: 0 <= k < |ids| ==> ids[k] in d.rows && r[k] == d.rows[ids[k]].fold
  {
    if ids == [] then []
    else
      var last := ids[|ids| - 1];
      assert last in ids;
      FoldColumn(d, ids[..|ids| - 1]) + [d.rows[last].fold]
  }

  /** The group keys of `df.loc[ids].groupby(fold_col)`: the fold labels present, in increasing order. */
  function GroupKeys(d: Dataset, ids: seq<Idx>): (r: seq<FoldLabel>)
    requires forall i :: i in ids ==> i in d.rows
    ensures StrictlyIncreasing(r)
    ensures forall f :: f in r <==> exists i :: i in ids && d.rows[i].fold == f
  {
    var col := FoldColumn(d, ids);
    assert forall f :: f in col <==> exists i :: i in ids && d.rows[i].fold == f by {
      forall f ensures f in col <==> exists i :: i in ids && d.rows[i].fold == f {
        if f in col {
          var k :| 0 <= k < |col| && col[k] == f;
          assert ids[k] in ids;
        }
        if exists i :: i in ids && d.rows[i].fold == f {
          var i :| i in ids && d.rows[i].fold == f;
          var k :| 0 <= k < |ids| && ids[k] == i;
          assert col[k] == f;
        }
      }
    }
    SortedKeys(col)
  }

  /** The fold label of every row of `ids` is a group key. */
  lemma GroupKeysCover(d: Dataset, ids: seq<Idx>)
    requires forall i :: i in ids ==> i in d.rows
    ensures forall i :: i in ids ==> d.rows[i].fold in GroupKeys(d, ids)
  {
    forall i | i in ids ensures d.rows[i].fold in GroupKeys(d, ids) {
      assert exists j :: j in ids && d.rows[j].fold == d.rows[i].fold;
    }
  }

  /** The rows of group `f` of `df.loc[ids].groupby(fold_col)`, in the order of `ids`. */
  function Group(d: Dataset, ids: seq<Idx>, f: FoldLabel): (r: seq<Idx>)
    ensures forall i :: i in r <==> i in ids && i in d.rows && d.rows[i].fold == f
    ensures Distinct(ids) ==> Distinct(r)
  {
    FilterOrder(ids, i => i in d.rows && d.rows[i].fold == f);
    Filter(ids, i => i in d.rows && d.rows[i].fold == f)
  }

  /** The distinct fold labels of the rows `ids`. */
  function FoldSet(d: Dataset, ids: seq<Idx>): set<FoldLabel>
    requires forall i :: i in ids ==> i in d.rows
  {
    set i | i in ids :: d.rows[i].fold
  }
}
