/**
 * The graph-based spatial cross-validation: the removing buffer (and optionally a selection buffer)
 * grows outward from the test set one graph ring at a time, admitting the ring's training rows fold
 * by fold while their semivariogram against the test set stays under a decaying sill.
 */
module Gbscv {
  import opened Seqs
  import opened Floats
  import opened Stats
  import opened Frames
  import opened Graph
  import opened Scv

  /** The column holding the one-dimensional reduction of the explanatory columns. */
  const X1DimCol: string := "X_1DIM"

  /** The folder names of runs with and without the selection buffer. */
  const SelectionName: string := "SRBuffer"
  const RemovingName: string := "RBuffer"

  /**
   * `_calculate_similarity_matrix`: one row per test value and one column per fold value, holding
   * the squared difference of the two; an entry is zero exactly when the two values are equal.
   */
  function SimilarityMatrix(testValues: seq<real>, foldValues: seq<real>): (m: seq<seq<real>>)
    ensures |m| == |testValues|
    ensures forall i :: 0 <= i < |m| ==> |m[i]| == |foldValues|
    ensures forall i, j :: 0 <= i < |m| && 0 <= j < |foldValues| ==>
      m[i][j] == (testValues[i] - foldValues[j]) * (testValues[i] - foldValues[j])
    ensures forall i, j :: 0 <= i < |m| && 0 <= j < |foldValues| ==>
      m[i][j] >= 0.0 && (m[i][j] == 0.0 <==> testValues[i] == foldValues[j])
  {
    var m := seq(|testValues|, i requires 0 <= i < |testValues| => Squares(Deviations(foldValues, testValues[i])));
    forall i, j | 0 <= i < |m| && 0 <= j < |foldValues|
      ensures m[i][j] == (testValues[i] - foldValues[j]) * (testValues[i] - foldValues[j])
    {
      var d := foldValues[j] - testValues[i];
      assert m[i] == Squares(Deviations(foldValues, testValues[i]));
      assert m[i][j] == d * d;
      assert testValues[i] - foldValues[j] == -d;
      assert (-d) * (-d) == d * d;
    }
    assert forall i :: 0 <= i < |m| ==> m[i] == Squares(Deviations(foldValues, testValues[i]));
    m
  }

  /** The sums of the rows of a matrix (`np.sum(similarity, axis=1)`). */
  function RowSums(m: seq<seq<real>>): (r: seq<real>)
    ensures |r| == |m|
    ensures forall i :: 0 <= i < |m| ==> r[i] == Sum(m[i])
  {
    seq(|m|, i requires 0 <= i < |m| => Sum(m[i]))
  }

  /** The number of entries of a matrix (`similarity.size`). */
  function Size(m: seq<seq<real>>): nat
    decreases |m|
  {
    if m == [] then 0 else Size(m[..|m| - 1]) + |m[|m| - 1]|
  }

  /** `_calculate_gamma`: the sum of all entries divided by twice their number. */
  function Gamma(similarity: seq<seq<real>>): Float
  {
    Div(Fin(Sum(RowSums(similarity))), Fin(2.0 * Size(similarity) as real))
  }

  /** A matrix of `|m|` rows of `c` entries each has `|m| * c` entries. */
  lemma {:induction false} SizeRectangular(m: seq<seq<real>>, c: nat)
    requires forall i :: 0 <= i < |m| ==> |m[i]| == c
    ensures Size(m) == |m| * c
    decreases |m|
  {
    if m != [] {
      SizeRectangular(m[..|m| - 1], c);
    }
  }

  /** The entries of a similarity matrix add up to a non-negative total, zero exactly when all pairs agree. */
  lemma SimilarityTotal(testValues: seq<real>, foldValues: seq<real>)
    ensures var total := Sum(RowSums(SimilarityMatrix(testValues, foldValues)));
      total >= 0.0
      && (total == 0.0 <==> forall i, j :: 0 <= i < |testValues| && 0 <= j < |foldValues| ==> testValues[i] == foldValues[j])
  {
    var m := SimilarityMatrix(testValues, foldValues);
    var rows := RowSums(m);
    forall i | 0 <= i < |m|
      ensures rows[i] >= 0.0 && (rows[i] == 0.0 <==> forall j :: 0 <= j < |foldValues| ==> testValues[i] == foldValues[j])
    {
      SumNonNegative(m[i]);
    }
    SumNonNegative(rows);
  }

  /** A non-negative quotient by a positive divisor, zero exactly when the dividend is. */
  lemma QuotientSign(a: real, d: real)
    requires a >= 0.0 && d > 0.0
    ensures a / d >= 0.0
    ensures a / d == 0.0 <==> a == 0.0
  {
    assert (a / d) * d == a;
  }

  /**
   * The semivariogram between a test set and a fold: the sum of the |test| x |fold| squared
   * differences divided by twice their number. It is never negative, is zero exactly when every
   * test value equals every fold value, and is NaN (0/0) when either side is empty.
   */
  lemma GammaOfSimilarity(testValues: seq<real>, foldValues: seq<real>)
    ensures var g := Gamma(SimilarityMatrix(testValues, foldValues));
      (|testValues| == 0 || |foldValues| == 0 <==> g.NaN?)
      && (|testValues| > 0 && |foldValues| > 0 ==>
        NonNegative(g)
        && g.v == Sum(RowSums(SimilarityMatrix(testValues, foldValues))) / (2.0 * (|testValues| * |foldValues|) as real)
        && (g.v == 0.0 <==> forall i, j :: 0 <= i < |testValues| && 0 <= j < |foldValues| ==> testValues[i] == foldValues[j]))
  {
    var m := SimilarityMatrix(testValues, foldValues);
    var total := Sum(RowSums(m));
    var n := |testValues| * |foldValues|;
    SizeRectangular(m, |foldValues|);
    SimilarityTotal(testValues, foldValues);
    var d := 2.0 * n as real;
    assert Gamma(m) == Div(Fin(total), Fin(d));
    if |testValues| > 0 && |foldValues| > 0 {
      assert n > 0;
      assert d > 0.0;
      QuotientSign(total, d);
    } else {
      assert n == 0;
      assert Size(m) == 0;
      assert total == 0.0;
    }
  }

  /** The training rows of one fold among the candidates of a growth round, and their semivariogram. */
  datatype Context = Context(fold: FoldLabel, gamma: Float, members: seq<Idx>)

  /** The fold labels of a list of contexts. */
  function ContextFolds(cs: seq<Context>): (r: seq<FoldLabel>)
    ensures |r| == |cs|
    ensures forall k :: 0 <= k < |cs| ==> r[k] == cs[k].fold
  {
    seq(|cs|, k requires 0 <= k < |cs| => cs[k].fold)
  }

  /** The context of fold `f` among the candidate rows. */
  function MakeContext(data: Dataset, test: seq<Idx>, candidates: seq<Idx>, f: FoldLabel, a: Attribute): Context
    requires forall i :: i in candidates ==> i in data.rows
    requires forall i :: i in test ==> i in data.rows
  {
    var members := Group(data, candidates, f);
    Context(f, Gamma(SimilarityMatrix(Values(data, test, a), Values(data, members, a))), members)
  }

  /**
   * `_calculate_gamma_by_fold`: the neighbours that are training rows, grouped by fold label in
   * increasing order; each group keeps the neighbours' order and carries the semivariogram of the
   * test values against its members' values.
   */
  function ContextGamma(data: Dataset, train: seq<Idx>, test: seq<Idx>, neighbors: seq<Idx>, a: Attribute): (r: seq<Context>)
    requires forall i :: i in train ==> i in data.rows
    requires forall i :: i in test ==> i in data.rows
    ensures ContextFolds(r) == GroupKeys(data, Keep(neighbors, train))
    ensures forall k :: 0 <= k < |r| ==> r[k] == MakeContext(data, test, Keep(neighbors, train), r[k].fold, a)
  {
    var candidates := Keep(neighbors, train);
    var keys := GroupKeys(data, candidates);
    seq(|keys|, k requires 0 <= k < |keys| => MakeContext(data, test, candidates, keys[k], a))
  }

  /** Every group of a round is non-empty, and holds training neighbours of the group's fold. */
  lemma ContextMembers(data: Dataset, train: seq<Idx>, test: seq<Idx>, neighbors: seq<Idx>, a: Attribute, k: nat)
    requires forall i :: i in train ==> i in data.rows
    requires forall i :: i in test ==> i in data.rows
    requires k < |ContextGamma(data, train, test, neighbors, a)|
    ensures var c := ContextGamma(data, train, test, neighbors, a)[k];
      c.members != [] && forall i :: i in c.members ==> i in neighbors && i in train && data.rows[i].fold == c.fold
  {
    var r := ContextGamma(data, train, test, neighbors, a);
    var candidates := Keep(neighbors, train);
    var keys := GroupKeys(data, candidates);
    assert ContextFolds(r)[k] == keys[k];
    var f := keys[k];
    assert f in keys;
    var i :| i in candidates && data.rows[i].fold == f;
    assert i in r[k].members;
  }

  /** Every training neighbour lands in the group of its fold. */
  lemma ContextsCover(data: Dataset, train: seq<Idx>, test: seq<Idx>, neighbors: seq<Idx>, a: Attribute, i: Idx)
    requires forall i :: i in train ==> i in data.rows
    requires forall i :: i in test ==> i in data.rows
    requires i in neighbors && i in train
    ensures var r := ContextGamma(data, train, test, neighbors, a);
      exists k :: 0 <= k < |r| && r[k].fold == data.rows[i].fold && i in r[k].members
  {
    var r := ContextGamma(data, train, test, neighbors, a);
    var candidates := Keep(neighbors, train);
    var keys := GroupKeys(data, candidates);
    assert i in candidates;
    var f := data.rows[i].fold;
    assert f in keys;
    var k :| 0 <= k < |keys| && keys[k] == f;
    assert ContextFolds(r)[k] == f;
    assert i in r[k].members;
  }

  /**
   * `_get_n_fold_neighbohood`: the number of distinct fold labels among the test set's neighbours
   * in the full adjacency matrix that are rows of the dataset.
   */
  function NFoldNeighbourhood(data: Dataset, adj: Adjacency, test: seq<Idx>): (r: nat)
    requires forall i :: i in test ==> i in adj.positive
    requires forall i :: i in data.index ==> i in data.rows
    ensures r == |FoldSet(data, Keep(Neighbors(adj, test), data.index))|
  {
    var near := Keep(Neighbors(adj, test), data.index);
    var keys := GroupKeys(data, near);
    IncreasingIsDistinct(keys);
    DistinctCard(keys);
    assert Elems(keys) == FoldSet(data, near);
    |keys|
  }

  /** `_calculate_exponent`: `log(size_tree - count_n) / log(size_tree)`, IEEE semantics. */
  function Exponent(sizeTree: int, countN: int, ln: real -> real): Float
  {
    Div(Log(sizeTree - countN, ln), Log(sizeTree, ln))
  }

  /** A sill or a semivariogram as `Series.var()` and `_calculate_gamma` produce them. */
  predicate SillLike(x: Float)
  {
    x.NaN? || NonNegative(x)
  }

  /**
   * The exponent decays from 1 at the test set to 0 at the last ring of the tree, and from there
   * on, or when the tree has fewer than two levels, no group can pass `gamma <= sill * exponent`.
   */
  lemma ExponentDecay(sizeTree: nat, countN: nat, ln: real -> real, sill: Float, gamma: Float)
    requires LogPositive(ln)
    requires SillLike(sill) && SillLike(gamma)
    ensures sizeTree >= 2 && countN == 0 ==> Exponent(sizeTree, countN, ln) == Fin(1.0)
    ensures sizeTree >= 2 && countN == sizeTree - 1 ==> Exponent(sizeTree, countN, ln) == Fin(0.0)
    ensures sizeTree >= 2 && countN < sizeTree - 1 ==> NonNegative(Exponent(sizeTree, countN, ln))
    ensures countN >= sizeTree || sizeTree < 2 ==> !Le(gamma, Mul(sill, Exponent(sizeTree, countN, ln)))
  {
    if sizeTree >= 2 {
      var d := ln(sizeTree as real);
      assert d > 0.0;
      assert Log(sizeTree, ln) == Fin(d);
      if countN == 0 {
        assert Log(sizeTree - countN, ln) == Fin(d);
        assert d / d == 1.0;
      }
      if countN < sizeTree - 1 {
        var x := (sizeTree - countN) as real;
        assert x > 1.0;
        assert ln(x) > 0.0;
      }
    }
  }

  /**
   * `max(d, key=d.get)` over the keys of `d` in insertion order: the first key whose value no later
   * value exceeds, comparing with `>` (so a NaN that comes first is never replaced).
   */
  function ArgMax(keys: seq<FoldLabel>, d: map<FoldLabel, Float>): (r: FoldLabel)
    requires keys != []
    requires forall f :: f in keys ==> f in d
    ensures r in keys
    decreases |keys|
  {
    if |keys| == 1 then keys[0]
    else
      var last := keys[|keys| - 1];
      var best := ArgMax(keys[..|keys| - 1], d);
      if Gt(d[last], d[best]) then last else best
  }

  /** No key's value is strictly above the value at the chosen key. */
  lemma {:induction false} ArgMaxIsMaximal(keys: seq<FoldLabel>, d: map<FoldLabel, Float>)
    requires keys != []
    requires forall f :: f in keys ==> f in d
    ensures forall f :: f in keys ==> !Gt(d[f], d[ArgMax(keys, d)])
    decreases |keys|
  {
    if |keys| > 1 {
      var init := keys[..|keys| - 1];
      ArgMaxIsMaximal(init, d);
      assert forall f :: f in keys ==> f in init || f == keys[|keys| - 1];
    }
  }

  /**
   * The running maximum of `>`-comparisons over a list: the first value, replaced by each later
   * value that is strictly greater.
   */
  function RunningMax(values: seq<Float>): Float
    requires values != []
    decreases |values|
  {
    if |values| == 1 then values[0]
    else
      var best := RunningMax(values[..|values| - 1]);
      if Gt(values[|values| - 1], best) then values[|values| - 1] else best
  }

  /** Over finite values the running maximum is the largest value of the list. */
  lemma {:induction false} RunningMaxIsMax(values: seq<Float>)
    requires values != []
    requires forall k :: 0 <= k < |values| ==> values[k].Fin?
    ensures RunningMax(values) in values
    ensures forall k :: 0 <= k < |values| ==> values[k].v <= RunningMax(values).v
    decreases |values|
  {
    if |values| > 1 {
      var init := values[..|values| - 1];
      RunningMaxIsMax(init);
      assert forall k :: 0 <= k < |init| ==> init[k] == values[k];
    }
  }

  /** Over any values the running maximum is one of them. */
  lemma {:induction false} RunningMaxMember(values: seq<Float>)
    requires values != []
    ensures RunningMax(values) in values
    decreases |values|
  {
    if |values| > 1 {
      var init := values[..|values| - 1];
      RunningMaxMember(init);
      assert forall x :: x in init ==> x in values;
    }
  }

  /** The mean of two sills is a sill: NaN if either is, non-negative otherwise. */
  lemma HalfOfSills(a: Float, b: Float)
    requires SillLike(a) && SillLike(b)
    ensures SillLike(Half(a, b))
  {
    if NonNegative(a) && NonNegative(b) {
      HalfNonNegative(a, b);
    }
  }

  /**
   * The sill of fold `f` for attribute `a`: the mean of the variance of the fold's training values
   * pooled with the test values, and the whole-dataset variance.
   */
  function FoldSill(data: Dataset, train: seq<Idx>, test: seq<Idx>, f: FoldLabel, a: Attribute): (r: Float)
    requires WellFormed(data)
    requires forall i :: i in train ==> i in data.rows
    requires forall i :: i in test ==> i in data.rows
    ensures SillLike(r)
  {
    PooledSill(data, Group(data, train, f), test, a, GlobalVariance(data, a))
  }

  /** The mean of the variance of a fold's values pooled with the test values, and `globalVar`. */
  function PooledSill(data: Dataset, fold: seq<Idx>, test: seq<Idx>, a: Attribute, globalVar: Float): (r: Float)
    requires forall i :: i in fold ==> i in data.rows
    requires forall i :: i in test ==> i in data.rows
    ensures SillLike(globalVar) ==> SillLike(r)
  {
    var pooled := Variance(Values(data, fold, a) + Values(data, test, a));
    if SillLike(globalVar) then
      HalfOfSills(pooled, globalVar);
      Half(pooled, globalVar)
    else Half(pooled, globalVar)
  }

  /** The sill of every fold for attribute `a`, as a function of the fold label. */
  function SillOf(data: Dataset, train: seq<Idx>, test: seq<Idx>, a: Attribute): FoldLabel -> Float
    requires WellFormed(data)
    requires forall i :: i in train ==> i in data.rows
    requires forall i :: i in test ==> i in data.rows
  {
    f => FoldSill(data, train, test, f, a)
  }

  /**
   * The dictionary `_calculate_selection_buffer_sill` leaves after the folds `keys` in turn: every
   * fold maps to the running `>`-maximum of their sills.
   */
  function LevelledMap(keys: seq<FoldLabel>, sill: FoldLabel -> Float): (r: map<FoldLabel, Float>)
    ensures forall f :: f in r <==> f in keys
  {
    if keys == [] then map[]
    else
      var top := RunningMax(SillSeq(keys, sill));
      map f | f in keys :: top
  }

  /** The dictionary that sets `d[f] = sill(f)` for each fold `f` of `keys` in turn. */
  function SillMap(keys: seq<FoldLabel>, sill: FoldLabel -> Float): map<FoldLabel, Float>
    decreases |keys|
  {
    if keys == [] then map[]
    else
      var n := |keys| - 1;
      SillMap(keys[..n], sill)[keys[n] := sill(keys[n])]
  }

  /** The dictionary is keyed by exactly the folds `keys`, each with its own sill. */
  lemma {:induction false} SillMapFacts(keys: seq<FoldLabel>, sill: FoldLabel -> Float)
    ensures forall f :: f in SillMap(keys, sill) <==> f in keys
    ensures forall f :: f in SillMap(keys, sill) ==> SillMap(keys, sill)[f] == sill(f)
    decreases |keys|
  {
    if keys != [] {
      var n := |keys| - 1;
      SillMapFacts(keys[..n], sill);
      assert keys == keys[..n] + [keys[n]];
    }
  }

  /** The sills of the folds `keys`, in the order of `keys`. */
  function SillSeq(keys: seq<FoldLabel>, sill: FoldLabel -> Float): (r: seq<Float>)
    ensures |r| == |keys|
    decreases |keys|
  {
    if keys == [] then []
    else
      var n := |keys| - 1;
      SillSeq(keys[..n], sill) + [sill(keys[n])]
  }

  /** The sills line up with the folds `keys`. */
  lemma {:induction false} SillSeqAt(keys: seq<FoldLabel>, sill: FoldLabel -> Float)
    ensures forall k :: 0 <= k < |keys| ==> SillSeq(keys, sill)[k] == sill(keys[k])
    decreases |keys|
  {
    if keys != [] {
      var n := |keys| - 1;
      SillSeqAt(keys[..n], sill);
      assert forall k :: 0 <= k < n ==> keys[..n][k] == keys[k];
    }
  }

  /**
   * When every key but the last maps to `m`, the `>`-maximum over the keys in order is the last
   * key's value if that is strictly greater than `m`, and `m` otherwise.
   */
  lemma ArgMaxAppend(keys: seq<FoldLabel>, f: FoldLabel, d: map<FoldLabel, Float>, m: Float)
    requires keys != []
    requires forall g :: g in keys ==> g in d && d[g] == m
    requires f in d
    ensures d[ArgMax(keys + [f], d)] == if Gt(d[f], m) then d[f] else m
  {
    assert (keys + [f])[..|keys|] == keys;
    var best := ArgMax(keys, d);
    assert best in keys;
  }

  /**
   * One step of `_initiate_buffers_sills` on the reduced sills: when every earlier fold's entry holds
   * the running maximum of `prev`, the maximal entry after adding the next fold's sill `v` is the
   * running maximum of `prev + [v]`.
   */
  lemma RunningMaxStep(before: map<FoldLabel, Float>, prefix: seq<FoldLabel>, f: FoldLabel, prev: seq<Float>, v: Float)
    requires |prefix| == |prev|
    requires forall g :: g in prefix <==> g in before
    requires f !in before
    requires prev != [] ==> forall g :: g in before ==> before[g] == RunningMax(prev)
    ensures var d := before[f := v];
      (forall g :: g in prefix + [f] ==> g in d) && d[ArgMax(prefix + [f], d)] == RunningMax(prev + [v])
  {
    var d := before[f := v];
    assert (prev + [v])[..|prev|] == prev;
    if prev == [] {
      assert prefix + [f] == [f];
    } else {
      ArgMaxAppend(prefix, f, d, RunningMax(prev));
    }
  }

  /** Taking one more fold extends the sills by that fold's sill and sets it in the dictionary. */
  lemma SillPrefix(keys: seq<FoldLabel>, j: nat, sill: FoldLabel -> Float)
    requires j < |keys|
    ensures keys[..j + 1] == keys[..j] + [keys[j]]
    ensures SillSeq(keys[..j + 1], sill) == SillSeq(keys[..j], sill) + [sill(keys[j])]
    ensures SillMap(keys[..j + 1], sill) == SillMap(keys[..j], sill)[keys[j] := sill(keys[j])]
  {
    assert keys[..j + 1][..j] == keys[..j];
  }

  /** `for k in d: d[k] = top`: every entry of the dictionary takes the value `top`. */
  method AssignAll(order: seq<FoldLabel>, d: map<FoldLabel, Float>, top: Float) returns (updated: map<FoldLabel, Float>)
    requires Elems(order) == d.Keys
    ensures updated == map g | g in d :: top
  {
    updated := d;
    for k := 0 to |order|
      invariant updated.Keys == d.Keys
      invariant forall l :: 0 <= l < k ==> updated[order[l]] == top
    {
      updated := updated[order[k] := top];
    }
    assert forall g :: g in d ==> exists l :: 0 <= l < |order| && order[l] == g;
    assert forall g :: g in updated ==> updated[g] == top;
  }

  /** The insertion order of a dictionary's keys after `d[f] = v`. */
  function SelectionOrder(order: seq<FoldLabel>, d: map<FoldLabel, Float>, f: FoldLabel): seq<FoldLabel>
  {
    if f in d then order else order + [f]
  }

  /**
   * The dictionary `_calculate_selection_buffer_sill` leaves: `d[f] = v`, then every entry set to
   * the value of the first `>`-maximal entry in insertion order.
   */
  function Levelled(order: seq<FoldLabel>, d: map<FoldLabel, Float>, f: FoldLabel, v: Float): (r: map<FoldLabel, Float>)
    requires Elems(order) == d.Keys
    ensures r.Keys == d.Keys + {f}
    ensures forall g :: g in r ==> r[g] == r[f]
  {
    var e := d[f := v];
    var o := SelectionOrder(order, d, f);
    assert f in o && forall g :: g in o ==> g in e;
    map g | g in e :: e[ArgMax(o, e)]
  }

  /**
   * The common value of the entries after the selection update is the value of one of the entries
   * after `d[f] = v`, and no entry's value exceeds it.
   */
  lemma LevelledMaximal(order: seq<FoldLabel>, d: map<FoldLabel, Float>, f: FoldLabel, v: Float)
    requires Elems(order) == d.Keys
    ensures var top := Levelled(order, d, f, v)[f];
      var e := d[f := v];
      top in e.Values && forall g :: g in e ==> !Gt(e[g], top)
  {
    var e := d[f := v];
    var o := SelectionOrder(order, d, f);
    assert f in o && forall g :: g in o ==> g in e;
    ArgMaxIsMaximal(o, e);
    var best := ArgMax(o, e);
    assert Levelled(order, d, f, v)[f] == e[best];
    assert e[best] in e.Values;
    forall g | g in e ensures !Gt(e[g], e[best]) {
      assert g in o;
    }
  }

  /**
   * `_calculate_selection_buffer_sill` on a dictionary `d` whose keys were inserted in the order
   * `order`: sets `d[f] = v`, then gives every entry the value of the first `>`-maximal entry.
   */
  method SelectionUpdate(order: seq<FoldLabel>, d: map<FoldLabel, Float>, f: FoldLabel, v: Float)
    returns (order': seq<FoldLabel>, d': map<FoldLabel, Float>)
    requires Distinct(order) && Elems(order) == d.Keys
    ensures Distinct(order') && Elems(order') == d'.Keys
    ensures order' == SelectionOrder(order, d, f)
    ensures d' == Levelled(order, d, f, v)
  {
    order' := order;
    if f !in d {
      DistinctConcat(order, [f]);
      order' := order + [f];
    }
    var e := d[f := v];
    assert Elems(order') == e.Keys;
    assert order' == SelectionOrder(order, d, f);
    var best := ArgMax(order', e);
    d' := AssignAll(order', e, e[best]);
  }

  /**
   * The loop of `_initiate_buffers_sills` over the groups `keys` of the training set: each fold gets
   * its reduced sill through the selection update and its target sill. Afterwards the target
   * dictionary maps each fold to its sill and every reduced entry holds the running `>`-maximum of
   * the folds' reduced sills.
   */
  method FillSills(keys: seq<FoldLabel>, target: FoldLabel -> Float, reduced: FoldLabel -> Float)
    returns (order: seq<FoldLabel>, targetMap: map<FoldLabel, Float>, reducedMap: map<FoldLabel, Float>)
    requires Distinct(keys)
    ensures order == keys && Elems(order) == reducedMap.Keys
    ensures targetMap == SillMap(keys, target)
    ensures reducedMap == LevelledMap(keys, reduced)
  {
    order, targetMap, reducedMap := [], map[], map[];
    for j := 0 to |keys|
      invariant order == keys[..j] && Distinct(order) && Elems(order) == reducedMap.Keys
      invariant targetMap == SillMap(keys[..j], target)
      invariant j > 0 ==> forall g :: g in reducedMap ==> reducedMap[g] == RunningMax(SillSeq(keys[..j], reduced))
    {
      var f := keys[j];
      var t, v := target(f), reduced(f);
      assert f !in order by {
        assert forall l :: 0 <= l < j ==> keys[l] != f;
      }
      RunningMaxStep(reducedMap, order, f, SillSeq(keys[..j], reduced), v);
      SillPrefix(keys, j, reduced);
      SillPrefix(keys, j, target);
      targetMap := targetMap[f := t];
      order, reducedMap := SelectionUpdate(order, reducedMap, f, v);
    }
    assert keys[..|keys|] == keys;
    assert forall g :: g in reducedMap <==> g in keys;
  }

  /** `sill_target` after `_initiate_buffers_sills`: each training fold's target sill. */
  function TargetSills(data: Dataset, train: seq<Idx>, test: seq<Idx>): (r: map<FoldLabel, Float>)
    requires WellFormed(data)
    requires forall i :: i in train ==> i in data.rows
    requires forall i :: i in test ==> i in data.rows
    ensures forall f :: f in r <==> f in GroupKeys(data, train)
    ensures forall f :: f in r ==> SillLike(r[f])
  {
    var keys := GroupKeys(data, train);
    var sill := SillOf(data, train, test, Target);
    SillMapFacts(keys, sill);
    SillMap(keys, sill)
  }

  /**
   * `sill_reduced` after `_initiate_buffers_sills`: every training fold maps to the running
   * `>`-maximum of the folds' reduced sills, taken in increasing fold order.
   */
  function ReducedSills(data: Dataset, train: seq<Idx>, test: seq<Idx>): (r: map<FoldLabel, Float>)
    requires WellFormed(data)
    requires forall i :: i in train ==> i in data.rows
    requires forall i :: i in test ==> i in data.rows
    ensures forall f :: f in r <==> f in GroupKeys(data, train)
    ensures forall f :: f in r ==> SillLike(r[f])
  {
    var keys := GroupKeys(data, train);
    var sill := SillOf(data, train, test, Reduced);
    if keys != [] then
      var sills := SillSeq(keys, sill);
      RunningMaxMember(sills);
      SillSeqAt(keys, sill);
      assert SillLike(RunningMax(sills)) by {
        var k :| 0 <= k < |sills| && sills[k] == RunningMax(sills);
        var f := keys[k];
        assert sills[k] == FoldSill(data, train, test, f, Reduced);
      }
      LevelledMap(keys, sill)
    else
      LevelledMap(keys, sill)
  }

  /** The state of a growth round: the rows buffered so far and the fold labels admitted, in order. */
  datatype Round = Round(buffer: seq<Idx>, folds: seq<FoldLabel>)

  /**
   * A group passes when its semivariogram is at most the decayed sill of its fold, and the distinct
   * fold labels admitted, counting this one, stay within the cap.
   */
  predicate Admissible(c: Context, sill: map<FoldLabel, Float>, exponent: Float, cap: int, folds: seq<FoldLabel>)
    requires c.fold in sill
  {
    Le(c.gamma, Mul(sill[c.fold], exponent)) && |Elems(folds + [c.fold])| <= cap
  }

  /** One growth round: the groups are examined in order, and every admissible one is admitted. */
  function Admit(ctx: seq<Context>, sill: map<FoldLabel, Float>, exponent: Float, cap: int, start: Round): Round
    requires forall k :: 0 <= k < |ctx| ==> ctx[k].fold in sill
    decreases |ctx|
  {
    if ctx == [] then start
    else
      var r := Admit(ctx[..|ctx| - 1], sill, exponent, cap, start);
      var c := ctx[|ctx| - 1];
      if Admissible(c, sill, exponent, cap, r.folds) then Round(r.buffer + c.members, r.folds + [c.fold]) else r
  }

  /**
   * The groups of a round hold fresh training rows: fold labels strictly increase, and every group
   * is non-empty, duplicate-free and made of training rows of its fold not yet buffered.
   */
  ghost predicate Fresh(data: Dataset, train: seq<Idx>, ctx: seq<Context>, buffer: seq<Idx>)
  {
    (forall k, l :: 0 <= k < l < |ctx| ==> ctx[k].fold < ctx[l].fold)
    && forall k :: 0 <= k < |ctx| ==>
      ctx[k].members != [] && Distinct(ctx[k].members)
      && forall i :: i in ctx[k].members ==> i in train && i !in buffer && i in data.rows && data.rows[i].fold == ctx[k].fold
  }

  /**
   * A round state is consistent: the buffer is duplicate-free and made of training rows, its fold
   * labels are exactly the admitted ones, and their number is within the cap once any is admitted.
   */
  ghost predicate Consistent(data: Dataset, train: seq<Idx>, r: Round, cap: int)
  {
    Distinct(r.buffer)
    && (forall i :: i in r.buffer ==> i in train && i in data.rows && data.rows[i].fold in r.folds)
    && (forall f :: f in r.folds ==> exists i :: i in r.buffer && data.rows[i].fold == f)
    && (r.folds == [] || |Elems(r.folds)| <= cap)
  }

  /** A consistent state's buffer has exactly the admitted fold labels. */
  lemma ConsistentFolds(data: Dataset, train: seq<Idx>, r: Round, cap: int)
    requires Consistent(data, train, r, cap)
    ensures FoldSet(data, r.buffer) == Elems(r.folds)
  {
    forall f | f in Elems(r.folds) ensures f in FoldSet(data, r.buffer) {
      var i :| i in r.buffer && data.rows[i].fold == f;
    }
  }

  /**
   * A round only appends: buffer and fold labels extend the starting ones, a round that admits no
   * fold label changes nothing, one that admits some grows the buffer, and with a cap below 1
   * nothing is admitted.
   */
  lemma {:induction false} AdmitExtends(ctx: seq<Context>, sill: map<FoldLabel, Float>, exponent: Float, cap: int, start: Round)
    requires forall k :: 0 <= k < |ctx| ==> ctx[k].fold in sill && ctx[k].members != []
    ensures var r := Admit(ctx, sill, exponent, cap, start);
      |start.buffer| <= |r.buffer| && r.buffer[..|start.buffer|] == start.buffer
      && |start.folds| <= |r.folds|
      && (|r.folds| == |start.folds| ==> r == start)
      && (|r.folds| > |start.folds| ==> |r.buffer| > |start.buffer|)
      && (cap < 1 ==> r == start)
    decreases |ctx|
  {
    if ctx != [] {
      var n := |ctx| - 1;
      var init := ctx[..n];
      assert forall k :: 0 <= k < n ==> init[k] == ctx[k];
      AdmitExtends(init, sill, exponent, cap, start);
      var r := Admit(init, sill, exponent, cap, start);
      var c := ctx[n];
      assert c.fold in Elems(r.folds + [c.fold]);
      if Admissible(c, sill, exponent, cap, r.folds) {
        var r' := Round(r.buffer + c.members, r.folds + [c.fold]);
        assert r'.buffer[..|r.buffer|] == r.buffer;
        assert r'.buffer[..|start.buffer|] == r.buffer[..|start.buffer|];
      }
    }
  }

  /**
   * Every row a round buffers belongs to a group that was admitted in it: its fold label is among
   * the admitted ones and its semivariogram passed `gamma <= sill * exponent`.
   */
  lemma {:induction false} AdmitOrigin(ctx: seq<Context>, sill: map<FoldLabel, Float>, exponent: Float, cap: int, start: Round)
    requires forall k :: 0 <= k < |ctx| ==> ctx[k].fold in sill
    ensures var r := Admit(ctx, sill, exponent, cap, start);
      forall i :: i in r.buffer && i !in start.buffer ==>
        exists k :: 0 <= k < |ctx| && i in ctx[k].members && ctx[k].fold in r.folds
          && Le(ctx[k].gamma, Mul(sill[ctx[k].fold], exponent))
    decreases |ctx|
  {
    if ctx != [] {
      var n := |ctx| - 1;
      var init := ctx[..n];
      assert forall k :: 0 <= k < n ==> init[k] == ctx[k];
      AdmitOrigin(init, sill, exponent, cap, start);
      var r := Admit(init, sill, exponent, cap, start);
      var c := ctx[n];
      if Admissible(c, sill, exponent, cap, r.folds) {
        var r' := Round(r.buffer + c.members, r.folds + [c.fold]);
        forall i | i in r'.buffer && i !in start.buffer
          ensures exists k :: (0 <= k < |ctx| && i in ctx[k].members && ctx[k].fold in r'.folds
            && Le(ctx[k].gamma, Mul(sill[ctx[k].fold], exponent)))
        {
          if i in c.members {
            assert ctx[n] == c;
          } else {
            var k :| 0 <= k < |init| && i in init[k].members && init[k].fold in r.folds
              && Le(init[k].gamma, Mul(sill[init[k].fold], exponent));
            assert ctx[k] == init[k];
          }
        }
      }
    }
  }

  /** A round over fresh groups keeps the state consistent. */
  lemma {:induction false} AdmitConsistent(data: Dataset, train: seq<Idx>, ctx: seq<Context>, sill: map<FoldLabel, Float>, exponent: Float, cap: int, start: Round)
    requires forall k :: 0 <= k < |ctx| ==> ctx[k].fold in sill
    requires Fresh(data, train, ctx, start.buffer)
    requires Consistent(data, train, start, cap)
    ensures Consistent(data, train, Admit(ctx, sill, exponent, cap, start), cap)
    decreases |ctx|
  {
    if ctx != [] {
      var n := |ctx| - 1;
      var init := ctx[..n];
      assert forall k :: 0 <= k < n ==> init[k] == ctx[k];
      assert Fresh(data, train, init, start.buffer);
      AdmitConsistent(data, train, init, sill, exponent, cap, start);
      AdmitOrigin(init, sill, exponent, cap, start);
      var r := Admit(init, sill, exponent, cap, start);
      var c := ctx[n];
      if Admissible(c, sill, exponent, cap, r.folds) {
        var r' := Round(r.buffer + c.members, r.folds + [c.fold]);
        forall i | i in r.buffer ensures i !in c.members {
          if i !in start.buffer {
            var k :| 0 <= k < |init| && i in init[k].members && init[k].fold in r.folds
              && Le(init[k].gamma, Mul(sill[init[k].fold], exponent));
            assert data.rows[i].fold == ctx[k].fold < c.fold;
          }
        }
        DistinctConcat(r.buffer, c.members);
        forall f | f in r'.folds ensures exists i :: i in r'.buffer && data.rows[i].fold == f {
          if f == c.fold {
            var i := c.members[0];
            assert i in ctx[n].members;
            assert i in r'.buffer && data.rows[i].fold == f;
          } else {
            assert f in r.folds;
            var i :| i in r.buffer && data.rows[i].fold == f;
            assert i in r'.buffer;
          }
        }
      }
    }
  }

  /** The groups of a growth round, taken around the test set and the buffer so far, are fresh. */
  lemma RoundFresh(data: Dataset, adj: Adjacency, train: seq<Idx>, test: seq<Idx>, buffer: seq<Idx>, a: Attribute)
    requires Valid(adj)
    requires forall i :: i in train ==> i in data.rows
    requires forall i :: i in test ==> i in data.rows
    requires forall i :: i in test + buffer ==> i in adj.positive
    ensures Fresh(data, train, ContextGamma(data, train, test, Neighbors(adj, test + buffer), a), buffer)
  {
    var nb := Neighbors(adj, test + buffer);
    var r := ContextGamma(data, train, test, nb, a);
    NeighborsDistinct(adj, test + buffer);
    KeepWithoutOrder(nb, train);
    var keys := GroupKeys(data, Keep(nb, train));
    forall k, l | 0 <= k < l < |r| ensures r[k].fold < r[l].fold {
      assert ContextFolds(r)[k] == keys[k] && ContextFolds(r)[l] == keys[l];
    }
    forall k | 0 <= k < |r|
      ensures r[k].members != [] && Distinct(r[k].members)
      ensures forall i :: i in r[k].members ==> i in train && i !in buffer && i in data.rows && data.rows[i].fold == r[k].fold
    {
      ContextMembers(data, train, test, nb, a, k);
      assert r[k].members == Group(data, Keep(nb, train), r[k].fold);
    }
  }

  /**
   * With sills and semivariograms as `var()` and `_calculate_gamma` produce them, no group passes
   * once the round counter reaches the tree size, nor at all when the tree has fewer than two levels.
   */
  lemma NoAdmissionBeyondTree(data: Dataset, train: seq<Idx>, test: seq<Idx>, nb: seq<Idx>, a: Attribute, sill: map<FoldLabel, Float>, sizeTree: nat, countN: nat, ln: real -> real)
    requires LogPositive(ln)
    requires forall i :: i in train ==> i in data.rows
    requires forall i :: i in test ==> i in data.rows
    requires forall f :: f in sill ==> SillLike(sill[f])
    requires sizeTree < 2 || countN >= sizeTree
    ensures var ctx := ContextGamma(data, train, test, nb, a);
      forall k :: 0 <= k < |ctx| && ctx[k].fold in sill ==> !Le(ctx[k].gamma, Mul(sill[ctx[k].fold], Exponent(sizeTree, countN, ln)))
  {
    var ctx := ContextGamma(data, train, test, nb, a);
    forall k | 0 <= k < |ctx| && ctx[k].fold in sill
      ensures !Le(ctx[k].gamma, Mul(sill[ctx[k].fold], Exponent(sizeTree, countN, ln)))
    {
      var c := ctx[k];
      var candidates := Keep(nb, train);
      assert c == MakeContext(data, test, candidates, c.fold, a);
      GammaOfSimilarity(Values(data, test, a), Values(data, c.members, a));
      ExponentDecay(sizeTree, countN, ln, sill[c.fold], c.gamma);
    }
  }

  /**
   * The body of `_calculate_buffer`'s `for` loop over one round's groups: each admissible group is
   * admitted in turn; `grew` says whether any was.
   */
  method AdmitGroups(ctx: seq<Context>, sill: map<FoldLabel, Float>, exponent: Float, cap: int, start: Round) returns (r: Round, grew: bool)
    requires forall k :: 0 <= k < |ctx| ==> ctx[k].fold in sill
    ensures r == Admit(ctx, sill, exponent, cap, start)
    ensures grew <==> |r.folds| > |start.folds|
  {
    r := start;
    grew := false;
    for j := 0 to |ctx|
      invariant r == Admit(ctx[..j], sill, exponent, cap, start)
      invariant |r.folds| >= |start.folds|
      invariant grew <==> |r.folds| > |start.folds|
    {
      var c := ctx[j];
      assert ctx[..j + 1][..j] == ctx[..j];
      if Le(c.gamma, Mul(sill[c.fold], exponent)) && |Elems(r.folds + [c.fold])| <= cap {
        r := Round(r.buffer + c.members, r.folds + [c.fold]);
        grew := true;
      }
    }
    assert ctx[..|ctx|] == ctx;
  }

  /**
   * What `_calculate_buffer` grows on: a valid adjacency matrix whose rows include the dataset's,
   * a duplicate-free training set of dataset rows whose folds all have a sill, and a test set of
   * dataset rows.
   */
  ghost predicate BufferSetting(data: Dataset, adj: Adjacency, train: seq<Idx>, test: seq<Idx>, sill: map<FoldLabel, Float>)
  {
    Valid(adj) && (forall i :: i in data.rows ==> i in adj.positive)
    && Distinct(train) && (forall i :: i in train ==> i in data.rows && data.rows[i].fold in sill)
    && (forall i :: i in test ==> i in data.rows)
  }

  /** The groups of a fresh round are non-empty groups of training rows, so every one has a sill. */
  lemma FreshHaveSills(data: Dataset, train: seq<Idx>, ctx: seq<Context>, buffer: seq<Idx>, sill: map<FoldLabel, Float>)
    requires Fresh(data, train, ctx, buffer)
    requires forall i :: i in train ==> i in data.rows && data.rows[i].fold in sill
    ensures forall k :: 0 <= k < |ctx| ==> ctx[k].fold in sill && ctx[k].members != []
  {
    forall k | 0 <= k < |ctx| ensures ctx[k].fold in sill {
      var i := ctx[k].members[0];
      assert i in ctx[k].members;
    }
  }

  /** The groups of the growth round around the test set and `buffer`: fresh rows one hop out. */
  function RoundContexts(data: Dataset, adj: Adjacency, train: seq<Idx>, test: seq<Idx>, buffer: seq<Idx>, a: Attribute): (r: seq<Context>)
    requires Valid(adj)
    requires forall i :: i in train ==> i in data.rows
    requires forall i :: i in test ==> i in data.rows
    requires forall i :: i in test + buffer ==> i in adj.positive
    ensures Fresh(data, train, r, buffer)
    ensures forall k, i :: 0 <= k < |r| && i in r[k].members ==> i in Neighbors(adj, test + buffer)
  {
    var nb := Neighbors(adj, test + buffer);
    RoundFresh(data, adj, train, test, buffer, a);
    var r := ContextGamma(data, train, test, nb, a);
    forall k | 0 <= k < |r| ensures forall i :: i in r[k].members ==> i in nb {
      ContextMembers(data, train, test, nb, a, k);
    }
    r
  }

  /**
   * One growth round of `_calculate_buffer` from the state `r`: the groups around the test set and
   * the buffer are examined in order. The state stays consistent and only grows; a round that
   * admits no fold label leaves it as it was, and one that admits some buffers more rows.
   */
  function NextRound(data: Dataset, adj: Adjacency, train: seq<Idx>, test: seq<Idx>, a: Attribute, sill: map<FoldLabel, Float>, exponent: Float, cap: int, r: Round): (next: Round)
    requires BufferSetting(data, adj, train, test, sill)
    requires Consistent(data, train, r, cap)
    ensures Consistent(data, train, next, cap)
    ensures |r.buffer| <= |next.buffer| <= |train| && next.buffer[..|r.buffer|] == r.buffer
    ensures |r.folds| <= |next.folds|
    ensures |next.folds| == |r.folds| ==> next == r
    ensures |next.folds| > |r.folds| ==> |next.buffer| > |r.buffer|
    ensures cap < 1 ==> next == r
  {
    assert forall i :: i in test + r.buffer ==> i in adj.positive;
    var ctx := RoundContexts(data, adj, train, test, r.buffer, a);
    FreshHaveSills(data, train, ctx, r.buffer, sill);
    AdmitExtends(ctx, sill, exponent, cap, r);
    AdmitConsistent(data, train, ctx, sill, exponent, cap, r);
    var next := Admit(ctx, sill, exponent, cap, r);
    assert Consistent(data, train, next, cap);
    assert forall i :: i in next.buffer ==> i in train;
    DistinctSubsetLength(next.buffer, train);
    next
  }

  /**
   * The rounds of `_calculate_buffer` from round `countN` on, starting from `r`: each round admits
   * the groups around the test set and the buffer whose semivariogram is within the sill decayed by
   * `Exponent(sizeTree, countN)`, and the growth stops after the first round that admits none.
   * The buffer stays duplicate-free, made of training rows, and within the cap of fold labels.
   */
  function GrowBuffer(data: Dataset, adj: Adjacency, train: seq<Idx>, test: seq<Idx>, a: Attribute, sill: map<FoldLabel, Float>, sizeTree: int, cap: int, ln: real -> real, countN: int, r: Round): (out: Round)
    requires BufferSetting(data, adj, train, test, sill)
    requires Consistent(data, train, r, cap)
    ensures Consistent(data, train, out, cap)
    ensures |r.buffer| <= |out.buffer| && out.buffer[..|r.buffer|] == r.buffer
    ensures cap < 1 ==> out == r
    decreases |train| - |r.buffer|
  {
    var next := NextRound(data, adj, train, test, a, sill, Exponent(sizeTree, countN, ln), cap, r);
    if |next.folds| == |r.folds| then r
    else
      var out := GrowBuffer(data, adj, train, test, a, sill, sizeTree, cap, ln, countN + 1, next);
      PrefixTransitive(r.buffer, next.buffer, out.buffer);
      out
  }

  /**
   * The body of `_calculate_buffer`'s `while` loop: the neighbours of the test set and the buffer,
   * their groups by fold, and the admission of each admissible group in turn.
   */
  method GrowthRound(data: Dataset, adj: Adjacency, train: seq<Idx>, test: seq<Idx>, a: Attribute, sill: map<FoldLabel, Float>, exponent: Float, cap: int, r: Round)
    returns (next: Round, growing: bool)
    requires BufferSetting(data, adj, train, test, sill)
    requires Consistent(data, train, r, cap)
    ensures next == NextRound(data, adj, train, test, a, sill, exponent, cap, r)
    ensures growing <==> |next.folds| > |r.folds|
  {
    assert forall i :: i in test + r.buffer ==> i in adj.positive;
    var ctx := RoundContexts(data, adj, train, test, r.buffer, a);
    FreshHaveSills(data, train, ctx, r.buffer, sill);
    next, growing := AdmitGroups(ctx, sill, exponent, cap, r);
  }

  /**
   * The loop of `_calculate_buffer`: rounds of growth from the empty buffer until one admits no
   * group, with the decay exponent of round `countN` taken from the tree size.
   */
  method BufferLoop(data: Dataset, adj: Adjacency, train: seq<Idx>, test: seq<Idx>, a: Attribute, sill: map<FoldLabel, Float>, sizeTree: int, cap: int, ln: real -> real)
    returns (buffer: seq<Idx>)
    requires BufferSetting(data, adj, train, test, sill)
    ensures buffer == GrowBuffer(data, adj, train, test, a, sill, sizeTree, cap, ln, 0, Round([], [])).buffer
  {
    var countN := 0;
    var growing := true;
    var r := Round([], []);
    ghost var goal := GrowBuffer(data, adj, train, test, a, sill, sizeTree, cap, ln, 0, r);
    while growing
      invariant Consistent(data, train, r, cap)
      invariant goal == if growing then GrowBuffer(data, adj, train, test, a, sill, sizeTree, cap, ln, countN, r) else r
      decreases |train| - |r.buffer|, growing
    {
      var exponent := Exponent(sizeTree, countN, ln);
      r, growing := GrowthRound(data, adj, train, test, a, sill, exponent, cap, r);
      countN := countN + 1;
    }
    buffer := r.buffer;
  }

  /** A round in which no group passes the semivariogram test admits nothing. */
  lemma {:induction false} AdmitNone(ctx: seq<Context>, sill: map<FoldLabel, Float>, exponent: Float, cap: int, start: Round)
    requires forall k :: 0 <= k < |ctx| ==> ctx[k].fold in sill && !Le(ctx[k].gamma, Mul(sill[ctx[k].fold], exponent))
    ensures Admit(ctx, sill, exponent, cap, start) == start
    decreases |ctx|
  {
    if ctx != [] {
      var n := |ctx| - 1;
      var init := ctx[..n];
      assert forall k :: 0 <= k < n ==> init[k] == ctx[k];
      AdmitNone(init, sill, exponent, cap, start);
    }
  }

  /**
   * With sills as `var()` produces them, no round at or beyond the tree size admits anything, and
   * neither does any round when the tree has fewer than two levels.
   */
  lemma GrowBufferStops(data: Dataset, adj: Adjacency, train: seq<Idx>, test: seq<Idx>, a: Attribute, sill: map<FoldLabel, Float>, sizeTree: nat, cap: int, ln: real -> real, countN: nat, r: Round)
    requires BufferSetting(data, adj, train, test, sill)
    requires Consistent(data, train, r, cap)
    requires LogPositive(ln)
    requires forall f :: f in sill ==> SillLike(sill[f])
    requires sizeTree < 2 || countN >= sizeTree
    ensures GrowBuffer(data, adj, train, test, a, sill, sizeTree, cap, ln, countN, r) == r
  {
    var ctx := RoundContexts(data, adj, train, test, r.buffer, a);
    NoAdmissionBeyondTree(data, train, test, Neighbors(adj, test + r.buffer), a, sill, sizeTree, countN, ln);
    FreshHaveSills(data, train, ctx, r.buffer, sill);
    AdmitNone(ctx, sill, Exponent(sizeTree, countN, ln), cap, r);
  }

  /** A round buffers only rows of its groups. */
  lemma {:induction false} AdmitWithin(ctx: seq<Context>, sill: map<FoldLabel, Float>, exponent: Float, cap: int, start: Round, bound: seq<Idx>)
    requires forall k :: 0 <= k < |ctx| ==> ctx[k].fold in sill
    requires forall k, i :: 0 <= k < |ctx| && i in ctx[k].members ==> i in bound
    ensures forall i :: i in Admit(ctx, sill, exponent, cap, start).buffer ==> i in start.buffer || i in bound
    decreases |ctx|
  {
    if ctx != [] {
      var n := |ctx| - 1;
      var init := ctx[..n];
      assert forall k :: 0 <= k < n ==> init[k] == ctx[k];
      AdmitWithin(init, sill, exponent, cap, start, bound);
      assert forall i :: i in ctx[n].members ==> i in bound;
    }
  }

  /** A round buffers only rows one hop beyond the test set and the buffer so far. */
  lemma NextRoundWithin(data: Dataset, adj: Adjacency, train: seq<Idx>, test: seq<Idx>, a: Attribute, sill: map<FoldLabel, Float>, exponent: Float, cap: int, countN: nat, r: Round)
    requires BufferSetting(data, adj, train, test, sill)
    requires Consistent(data, train, r, cap)
    requires forall i :: i in r.buffer ==> i in Grow(adj, test, countN)
    ensures forall i :: i in NextRound(data, adj, train, test, a, sill, exponent, cap, r).buffer ==> i in Grow(adj, test, countN + 1)
  {
    var ctx := RoundContexts(data, adj, train, test, r.buffer, a);
    FreshHaveSills(data, train, ctx, r.buffer, sill);
    var grown := Grow(adj, test, countN);
    var bound := Grow(adj, test, countN + 1);
    PrefixMembers(test, grown);
    GrowPrefix(adj, test, countN, countN + 1);
    PrefixMembers(grown, bound);
    assert forall i :: i in test + r.buffer ==> i in adj.positive && i in grown;
    NeighborsWithinGrow(adj, test, countN, test + r.buffer);
    AdmitWithin(ctx, sill, exponent, cap, r, bound);
  }

  /**
   * One step of the growth: a round that admits nothing ends it, and one that admits something
   * grows the buffer, within one more hop of the test set.
   */
  lemma GrowStep(data: Dataset, adj: Adjacency, train: seq<Idx>, test: seq<Idx>, a: Attribute, sill: map<FoldLabel, Float>, sizeTree: nat, cap: int, ln: real -> real, countN: nat, r: Round)
    returns (next: Round, grew: bool)
    requires BufferSetting(data, adj, train, test, sill)
    requires Consistent(data, train, r, cap)
    requires forall i :: i in r.buffer ==> i in Grow(adj, test, countN)
    ensures Consistent(data, train, next, cap)
    ensures !grew ==> GrowBuffer(data, adj, train, test, a, sill, sizeTree, cap, ln, countN, r) == r
    ensures grew ==>
      GrowBuffer(data, adj, train, test, a, sill, sizeTree, cap, ln, countN, r) == GrowBuffer(data, adj, train, test, a, sill, sizeTree, cap, ln, countN + 1, next)
      && |r.buffer| < |next.buffer| <= |train| && forall i :: i in next.buffer ==> i in Grow(adj, test, countN + 1)
  {
    next := NextRound(data, adj, train, test, a, sill, Exponent(sizeTree, countN, ln), cap, r);
    grew := |next.folds| != |r.folds|;
    if grew {
      NextRoundWithin(data, adj, train, test, a, sill, Exponent(sizeTree, countN, ln), cap, countN, r);
    }
  }

  /**
   * With sills as `var()` produces them, every row the rounds from `countN` on buffer lies within
   * `max(countN, sizeTree)` hops of the test set in the full graph, given that the buffer so far
   * lies within `countN` hops.
   */
  lemma {:induction false} GrowBufferWithinTree(data: Dataset, adj: Adjacency, train: seq<Idx>, test: seq<Idx>, a: Attribute, sill: map<FoldLabel, Float>, sizeTree: nat, cap: int, ln: real -> real, countN: nat, r: Round)
    requires BufferSetting(data, adj, train, test, sill)
    requires Consistent(data, train, r, cap)
    requires LogPositive(ln)
    requires forall f :: f in sill ==> SillLike(sill[f])
    requires forall i :: i in r.buffer ==> i in Grow(adj, test, countN)
    ensures var top := if countN < sizeTree then sizeTree else countN;
      forall i :: i in GrowBuffer(data, adj, train, test, a, sill, sizeTree, cap, ln, countN, r).buffer ==> i in Grow(adj, test, top)
    decreases |train| - |r.buffer|, 2
  {
    if countN >= sizeTree {
      GrowBufferStops(data, adj, train, test, a, sill, sizeTree, cap, ln, countN, r);
    } else {
      GrowWithinTreeStep(data, adj, train, test, a, sill, sizeTree, cap, ln, countN, r);
    }
  }

  /** A round before the last ring of the tree: it admits nothing, or the rounds after it stay within the tree. */
  lemma {:induction false} GrowWithinTreeStep(data: Dataset, adj: Adjacency, train: seq<Idx>, test: seq<Idx>, a: Attribute, sill: map<FoldLabel, Float>, sizeTree: nat, cap: int, ln: real -> real, countN: nat, r: Round)
    requires BufferSetting(data, adj, train, test, sill)
    requires Consistent(data, train, r, cap)
    requires LogPositive(ln)
    requires forall f :: f in sill ==> SillLike(sill[f])
    requires forall i :: i in r.buffer ==> i in Grow(adj, test, countN)
    requires countN < sizeTree
    ensures forall i :: i in GrowBuffer(data, adj, train, test, a, sill, sizeTree, cap, ln, countN, r).buffer ==> i in Grow(adj, test, sizeTree)
    decreases |train| - |r.buffer|, 1
  {
    var next, grew := GrowStep(data, adj, train, test, a, sill, sizeTree, cap, ln, countN, r);
    if grew {
      GrowWithinTreeAfter(data, adj, train, test, a, sill, sizeTree, cap, ln, countN + 1, next, |r.buffer|);
    } else {
      GrowMonotone(adj, test, countN, sizeTree, r.buffer);
    }
  }

  /** The rounds after one that admitted something, up to the last ring of the tree. */
  lemma {:induction false} GrowWithinTreeAfter(data: Dataset, adj: Adjacency, train: seq<Idx>, test: seq<Idx>, a: Attribute, sill: map<FoldLabel, Float>, sizeTree: nat, cap: int, ln: real -> real, countN: nat, r: Round, before: nat)
    requires BufferSetting(data, adj, train, test, sill)
    requires Consistent(data, train, r, cap)
    requires LogPositive(ln)
    requires forall f :: f in sill ==> SillLike(sill[f])
    requires forall i :: i in r.buffer ==> i in Grow(adj, test, countN)
    requires countN <= sizeTree && before < |r.buffer| <= |train|
    ensures forall i :: i in GrowBuffer(data, adj, train, test, a, sill, sizeTree, cap, ln, countN, r).buffer ==> i in Grow(adj, test, sizeTree)
    decreases |train| - before, 0
  {
    GrowBufferWithinTree(data, adj, train, test, a, sill, sizeTree, cap, ln, countN, r);
  }

  /**
   * The buffer `_calculate_buffer` returns is duplicate-free, made of training rows and of at most
   * `cap` fold labels, and empty when the cap is below one. With sills as `var()` produces them it
   * is also empty when the tree has fewer than two levels, and lies within `sizeTree` hops of the
   * test set.
   */
  lemma BufferFacts(data: Dataset, adj: Adjacency, train: seq<Idx>, test: seq<Idx>, a: Attribute, sill: map<FoldLabel, Float>, sizeTree: nat, cap: int, ln: real -> real)
    requires BufferSetting(data, adj, train, test, sill)
    ensures var b := GrowBuffer(data, adj, train, test, a, sill, sizeTree, cap, ln, 0, Round([], [])).buffer;
      Distinct(b) && (forall i :: i in b ==> i in train && i in data.rows)
      && (b == [] || |FoldSet(data, b)| <= cap)
      && (cap < 1 ==> b == [])
    ensures var b := GrowBuffer(data, adj, train, test, a, sill, sizeTree, cap, ln, 0, Round([], [])).buffer;
      LogPositive(ln) && (forall f :: f in sill ==> SillLike(sill[f])) ==>
        (sizeTree < 2 ==> b == []) && forall i :: i in b ==> i in Grow(adj, test, sizeTree)
  {
    var start := Round([], []);
    var out := GrowBuffer(data, adj, train, test, a, sill, sizeTree, cap, ln, 0, start);
    ConsistentFolds(data, train, out, cap);
    if out.buffer != [] {
      var i := out.buffer[0];
      assert i in out.buffer;
      assert out.folds != [];
    }
    if LogPositive(ln) && (forall f :: f in sill ==> SillLike(sill[f])) {
      if sizeTree < 2 {
        GrowBufferStops(data, adj, train, test, a, sill, sizeTree, cap, ln, 0, start);
      }
      GrowBufferWithinTree(data, adj, train, test, a, sill, sizeTree, cap, ln, 0, start);
    }
  }

  /** The number of levels `_calculate_longest_path` reports for the local graph of test and train. */
  function TreeSize(adj: Adjacency, test: seq<Idx>, train: seq<Idx>): nat
    requires Valid(adj)
    requires Distinct(test) && Distinct(train) && (forall i :: i in train ==> i !in test)
    requires forall i :: i in test + train ==> i in adj.positive
  {
    assert forall i :: i in test ==> i !in train;
    DistinctConcat(test, train);
    var m := Restrict(adj, test + train);
    var layers := Layers(m, test);
    if layers == 0 then 0 else layers + 1
  }

  /**
   * The tree size counts the levels of the breadth-first tree rooted at the test set: it is zero
   * exactly when the test set has no neighbour, and otherwise ring `k` is non-empty exactly for
   * `1 <= k < TreeSize`.
   */
  lemma TreeSizeLevels(adj: Adjacency, test: seq<Idx>, train: seq<Idx>, k: nat)
    requires Valid(adj)
    requires Distinct(test) && Distinct(train) && (forall i :: i in train ==> i !in test)
    requires forall i :: i in test + train ==> i in adj.positive
    requires k >= 1
    ensures var m := Restrict(adj, test + train);
      Valid(m) && (forall i :: i in test ==> i in m.positive)
      && (TreeSize(adj, test, train) == 0 <==> Ring(m, test, 1) == [])
      && (TreeSize(adj, test, train) != 1)
      && (TreeSize(adj, test, train) > 0 ==> (Ring(m, test, k) != [] <==> k < TreeSize(adj, test, train)))
  {
    assert forall i :: i in test ==> i !in train;
    DistinctConcat(test, train);
    var m := Restrict(adj, test + train);
    LayersAreRings(m, test, 1);
    LayersAreRings(m, test, k);
  }

  /**
   * The loop of `_calculate_longest_path`: grows the path from `root` ring by ring, counting one
   * level per round that started with a non-empty ring.
   */
  method TreeLevels(m: Adjacency, root: seq<Idx>) returns (sizeTree: nat)
    requires Valid(m)
    requires forall i :: i in root ==> i in m.positive
    ensures sizeTree == if Layers(m, root) == 0 then 0 else Layers(m, root) + 1
  {
    ghost var layers := Layers(m, root);
    var path := root;
    var neighbors := Neighbors(m, path);
    LayersAreRings(m, root, 1);
    sizeTree := 0;
    while neighbors != []
      invariant path == Grow(m, root, sizeTree)
      invariant neighbors == Ring(m, root, if sizeTree == 0 then 1 else sizeTree)
      invariant sizeTree >= 1 ==> 1 <= layers && sizeTree <= layers + 1
      decreases layers + 1 - sizeTree
    {
      LayersAreRings(m, root, if sizeTree == 0 then 1 else sizeTree);
      assert 1 <= layers && sizeTree <= layers;
      sizeTree := sizeTree + 1;
      neighbors := Neighbors(m, path);
      assert neighbors == Ring(m, root, sizeTree);
      path := path + neighbors;
      assert path == Grow(m, root, sizeTree);
    }
    LayersAreRings(m, root, if sizeTree == 0 then 1 else sizeTree);
  }

  /**
   * The buffer `_calculate_buffer` grows around `test` over the training rows `train`: the tree
   * size is that of the graph of test and training rows, and the cap `n_fold_neighbors * kappa`.
   */
  function GbscvBuffer(data: Dataset, adj: Adjacency, train: seq<Idx>, test: seq<Idx>, a: Attribute, sill: map<FoldLabel, Float>, kappa: int, ln: real -> real): seq<Idx>
    requires WellFormed(data)
    requires BufferSetting(data, adj, train, test, sill)
    requires Distinct(test) && (forall i :: i in train ==> i !in test)
  {
    var sizeTree := TreeSize(adj, test, train);
    var cap := NFoldNeighbourhood(data, adj, test) * kappa;
    GrowBuffer(data, adj, train, test, a, sill, sizeTree, cap, ln, 0, Round([], [])).buffer
  }

  /**
   * The buffer of `_calculate_buffer` is duplicate-free, made of training rows and of at most
   * `n_fold_neighbors * kappa` fold labels, so empty when that cap is below one. With sills as
   * `var()` produces them it lies within as many hops of the test set as the tree has levels, and
   * is empty when the test set has no neighbour among the test and training rows.
   */
  lemma GbscvBufferFacts(data: Dataset, adj: Adjacency, train: seq<Idx>, test: seq<Idx>, a: Attribute, sill: map<FoldLabel, Float>, kappa: int, ln: real -> real)
    requires WellFormed(data)
    requires BufferSetting(data, adj, train, test, sill)
    requires Distinct(test) && (forall i :: i in train ==> i !in test)
    ensures var b := GbscvBuffer(data, adj, train, test, a, sill, kappa, ln);
      var cap := NFoldNeighbourhood(data, adj, test) * kappa;
      Distinct(b) && (forall i :: i in b ==> i in train && i in data.rows && i !in test)
      && (b == [] || |FoldSet(data, b)| <= cap)
      && (cap < 1 ==> b == [])
    ensures var b := GbscvBuffer(data, adj, train, test, a, sill, kappa, ln);
      LogPositive(ln) && (forall f :: f in sill ==> SillLike(sill[f])) ==>
        (TreeSize(adj, test, train) == 0 ==> b == [])
        && forall i :: i in b ==> i in Grow(adj, test, TreeSize(adj, test, train))
  {
    var sizeTree := TreeSize(adj, test, train);
    TreeSizeLevels(adj, test, train, 1);
    BufferFacts(data, adj, train, test, a, sill, sizeTree, NFoldNeighbourhood(data, adj, test) * kappa, ln);
  }

  /** The buffer of `_calculate_buffer` is made of training rows. */
  lemma GbscvBufferWithin(data: Dataset, adj: Adjacency, train: seq<Idx>, test: seq<Idx>, a: Attribute, sill: map<FoldLabel, Float>, kappa: int, ln: real -> real)
    requires WellFormed(data)
    requires BufferSetting(data, adj, train, test, sill)
    requires Distinct(test) && (forall i :: i in train ==> i !in test)
    ensures forall i :: i in GbscvBuffer(data, adj, train, test, a, sill, kappa, ln) ==> i in train
  {
    GbscvBufferFacts(data, adj, train, test, a, sill, kappa, ln);
  }

  /** The sill dictionaries of a fold hold exactly the fold labels of the rows outside the test set. */
  ghost predicate SillsCover(data: Dataset, test: seq<Idx>, reduced: map<FoldLabel, Float>, target: map<FoldLabel, Float>)
  {
    WellFormed(data) && (forall i :: i in test ==> i in data.rows)
    && (forall f :: f in reduced <==> f in GroupKeys(data, IndexTrain(data, test)))
    && (forall f :: f in target <==> f in GroupKeys(data, IndexTrain(data, test)))
  }

  /**
   * The rows the removing buffer grows over, `rest` or the selection buffer grown over it, are
   * duplicate-free rows of `rest` and each has a target sill.
   */
  lemma GrownOverSetting(data: Dataset, adj: Adjacency, test: seq<Idx>, reduced: map<FoldLabel, Float>, target: map<FoldLabel, Float>,
    kappa: int, runSelection: bool, ln: real -> real)
    requires WellFormed(data) && Valid(adj) && (forall i :: i in data.rows ==> i in adj.positive)
    requires Distinct(test) && SillsCover(data, test, reduced, target)
    ensures var rest := IndexTrain(data, test);
      var grownOver := if runSelection then GbscvBuffer(data, adj, rest, test, Reduced, reduced, kappa, ln) else rest;
      BufferSetting(data, adj, rest, test, reduced) && (forall i :: i in rest ==> i !in test)
      && BufferSetting(data, adj, grownOver, test, target) && (forall i :: i in grownOver ==> i in rest)
  {
    var rest := IndexTrain(data, test);
    IndexTrainOrder(data, test);
    GroupKeysCover(data, rest);
    if runSelection {
      GbscvBufferFacts(data, adj, rest, test, Reduced, reduced, kappa, ln);
    }
  }

  /** The training rows a fold keeps, and its removing buffer. */
  datatype Buffers = Buffers(train: seq<Idx>, removing: seq<Idx>)

  /**
   * The buffers of one fold, with the reduced and target sills given. `rest` is every row outside
   * the test set; the rows the removing buffer grows over are `rest`, or with a selection buffer
   * the selection buffer grown over `rest` on the reduced attribute; the removing buffer is grown
   * on the target, and the training rows kept are the rows grown over less the removing buffer.
   */
  function FoldBuffers(data: Dataset, adj: Adjacency, kappa: int, runSelection: bool, ln: real -> real,
    reduced: map<FoldLabel, Float>, target: map<FoldLabel, Float>, test: seq<Idx>): Buffers
    requires WellFormed(data) && Valid(adj) && (forall i :: i in data.rows ==> i in adj.positive)
    requires Distinct(test) && SillsCover(data, test, reduced, target)
  {
    var rest := IndexTrain(data, test);
    GrownOverSetting(data, adj, test, reduced, target, kappa, runSelection, ln);
    var grownOver := if runSelection then GbscvBuffer(data, adj, rest, test, Reduced, reduced, kappa, ln) else rest;
    var removing := GbscvBuffer(data, adj, grownOver, test, Target, target, kappa, ln);
    Buffers(Without(grownOver, removing), removing)
  }

  /**
   * The buffers of one fold, given the rows the removing buffer grew over (the selection buffer
   * or every row outside the test set) and the removing buffer grown over them.
   */
  lemma FoldBuffersOf(data: Dataset, adj: Adjacency, kappa: int, runSelection: bool, ln: real -> real,
    reduced: map<FoldLabel, Float>, target: map<FoldLabel, Float>, test: seq<Idx>, grownOver: seq<Idx>, removing: seq<Idx>)
    requires WellFormed(data) && Valid(adj) && (forall i :: i in data.rows ==> i in adj.positive)
    requires Distinct(test) && SillsCover(data, test, reduced, target)
    requires grownOver == if runSelection then GbscvBuffer(data, adj, IndexTrain(data, test), test, Reduced, reduced, kappa, ln) else IndexTrain(data, test)
    requires BufferSetting(data, adj, grownOver, test, target) && (forall i :: i in grownOver ==> i !in test)
    requires removing == GbscvBuffer(data, adj, grownOver, test, Target, target, kappa, ln)
    ensures Buffers(Without(grownOver, removing), removing) == FoldBuffers(data, adj, kappa, runSelection, ln, reduced, target, test)
  {
  }

  /**
   * The BFS tree of the test set among all rows: the rows within as many hops of the test set as
   * `_calculate_longest_path` counts levels.
   */
  function FoldTree(data: Dataset, adj: Adjacency, test: seq<Idx>): seq<Idx>
    requires WellFormed(data) && Valid(adj) && (forall i :: i in data.rows ==> i in adj.positive)
    requires Distinct(test) && (forall i :: i in test ==> i in data.rows)
  {
    var rest := IndexTrain(data, test);
    assert forall i :: i in test + rest ==> i in adj.positive;
    Grow(adj, test, TreeSize(adj, test, rest))
  }

  /**
   * The buffers of a fold: the kept training rows and the removing buffer are duplicate-free,
   * disjoint rows outside the test set, and without a selection buffer the training rows are every
   * other row less the removing buffer.
   */
  lemma FoldBuffersRows(data: Dataset, adj: Adjacency, kappa: int, runSelection: bool, ln: real -> real,
    reduced: map<FoldLabel, Float>, target: map<FoldLabel, Float>, test: seq<Idx>)
    requires WellFormed(data) && Valid(adj) && (forall i :: i in data.rows ==> i in adj.positive)
    requires Distinct(test) && SillsCover(data, test, reduced, target)
    ensures var b := FoldBuffers(data, adj, kappa, runSelection, ln, reduced, target, test);
      var rest := IndexTrain(data, test);
      Distinct(b.train) && Distinct(b.removing)
      && (forall i :: i in b.train ==> i in rest)
      && (forall i :: i in b.removing ==> i in rest && i !in b.train)
      && (!runSelection ==> b.train == Without(rest, b.removing))
  {
    var rest := IndexTrain(data, test);
    GrownOverSetting(data, adj, test, reduced, target, kappa, runSelection, ln);
    var grownOver := if runSelection then GbscvBuffer(data, adj, rest, test, Reduced, reduced, kappa, ln) else rest;
    var removing := GbscvBuffer(data, adj, grownOver, test, Target, target, kappa, ln);
    GbscvBufferFacts(data, adj, grownOver, test, Target, target, kappa, ln);
    BufferedSplit(data, test, grownOver, removing);
    KeepWithoutOrder(grownOver, removing);
  }

  /**
   * The removing buffer of a fold holds at most `n_fold_neighbors * kappa` fold labels, and none
   * when that cap is below one.
   */
  lemma FoldBuffersCap(data: Dataset, adj: Adjacency, kappa: int, runSelection: bool, ln: real -> real,
    reduced: map<FoldLabel, Float>, target: map<FoldLabel, Float>, test: seq<Idx>)
    requires WellFormed(data) && Valid(adj) && (forall i :: i in data.rows ==> i in adj.positive)
    requires Distinct(test) && SillsCover(data, test, reduced, target)
    ensures var removing := FoldBuffers(data, adj, kappa, runSelection, ln, reduced, target, test).removing;
      var cap := NFoldNeighbourhood(data, adj, test) * kappa;
      (forall i :: i in removing ==> i in data.rows)
      && (removing == [] || |FoldSet(data, removing)| <= cap)
      && (cap < 1 ==> removing == [])
  {
    var rest := IndexTrain(data, test);
    GrownOverSetting(data, adj, test, reduced, target, kappa, runSelection, ln);
    var grownOver := if runSelection then GbscvBuffer(data, adj, rest, test, Reduced, reduced, kappa, ln) else rest;
    GbscvBufferFacts(data, adj, grownOver, test, Target, target, kappa, ln);
  }

  /**
   * With sills as `var()` produces them, the buffers of a fold lie within the BFS tree of its test
   * set: the removing buffer, and with a selection buffer every kept training row.
   */
  lemma FoldBuffersWithinTree(data: Dataset, adj: Adjacency, kappa: int, runSelection: bool, ln: real -> real,
    reduced: map<FoldLabel, Float>, target: map<FoldLabel, Float>, test: seq<Idx>)
    requires WellFormed(data) && Valid(adj) && (forall i :: i in data.rows ==> i in adj.positive)
    requires Distinct(test) && SillsCover(data, test, reduced, target)
    requires LogPositive(ln) && (forall f :: f in reduced ==> SillLike(reduced[f])) && (forall f :: f in target ==> SillLike(target[f]))
    ensures var b := FoldBuffers(data, adj, kappa, runSelection, ln, reduced, target, test);
      var tree := FoldTree(data, adj, test);
      (!runSelection ==> forall i :: i in b.removing ==> i in tree)
      && (runSelection ==> forall i :: i in b.train + b.removing ==> i in tree)
  {
    var rest := IndexTrain(data, test);
    GrownOverSetting(data, adj, test, reduced, target, kappa, runSelection, ln);
    var grownOver := if runSelection then GbscvBuffer(data, adj, rest, test, Reduced, reduced, kappa, ln) else rest;
    var removing := GbscvBuffer(data, adj, grownOver, test, Target, target, kappa, ln);
    GbscvBufferFacts(data, adj, grownOver, test, Target, target, kappa, ln);
    if runSelection {
      GbscvBufferFacts(data, adj, rest, test, Reduced, reduced, kappa, ln);
      assert forall i :: i in Without(grownOver, removing) ==> i in grownOver;
    }
  }

  /** The folder of a run's folds: `SRBuffer` with a selection buffer, `RBuffer` without. */
  function FoldsName(runSelection: bool): string
  {
    if runSelection then SelectionName else RemovingName
  }

  /**
   * What `run` leaves behind for fold `f`, with the reduced and target sills given: the fold's
   * folder, the record of its buffers, the fold table of its training rows, and the columns of
   * train and test once `X_1DIM` and the fold column are dropped.
   */
  function FoldOutputWith(data: Dataset, adj: Adjacency, kappa: int, runSelection: bool, ln: real -> real,
    dataColumns: seq<string>, foldCol: string, rootPath: seq<Segment>,
    reduced: map<FoldLabel, Float>, target: map<FoldLabel, Float>, f: FoldLabel): FoldOutput
    requires WellFormed(data) && Valid(adj) && (forall i :: i in data.rows ==> i in adj.positive)
    requires SillsCover(data, Group(data, data.index, f), reduced, target)
  {
    var test := Group(data, data.index, f);
    var b := FoldBuffers(data, adj, kappa, runSelection, ln, reduced, target, test);
    FoldBuffersRows(data, adj, kappa, runSelection, ln, reduced, target, test);
    var columns := WithoutColumns(dataColumns, [X1DimCol, foldCol]);
    FoldOutput(f, MethodDir(rootPath, FoldsName(runSelection)) + [FoldDir(f)],
      SplitRecord(b.train, test, b.removing, Discarded(data, b.train, test, b.removing)),
      FoldTable(data, b.train), columns, columns)
  }

  /** What `run` leaves behind for fold `f`, with the sills `_initiate_buffers_sills` sets. */
  function GbscvFoldOutput(data: Dataset, adj: Adjacency, kappa: int, runSelection: bool, ln: real -> real,
    dataColumns: seq<string>, foldCol: string, rootPath: seq<Segment>, f: FoldLabel): FoldOutput
    requires WellFormed(data) && Valid(adj) && (forall i :: i in data.rows ==> i in adj.positive)
  {
    var test := Group(data, data.index, f);
    var rest := IndexTrain(data, test);
    FoldOutputWith(data, adj, kappa, runSelection, ln, dataColumns, foldCol, rootPath, ReducedSills(data, rest, test), TargetSills(data, rest, test), f)
  }

  /** `o` is what `run` leaves behind for the fold label it carries. */
  ghost predicate GbscvFold(data: Dataset, adj: Adjacency, kappa: int, runSelection: bool, ln: real -> real,
    dataColumns: seq<string>, foldCol: string, rootPath: seq<Segment>, o: FoldOutput)
  {
    WellFormed(data) && Valid(adj) && (forall i :: i in data.rows ==> i in adj.positive)
    && o == GbscvFoldOutput(data, adj, kappa, runSelection, ln, dataColumns, foldCol, rootPath, o.fold)
  }

  /**
   * The graph-based fold of `f`, given its test set, the sills `_initiate_buffers_sills` sets for
   * it, and buffers equal to the ones `FoldBuffers` grows with them.
   */
  lemma GbscvFoldOutputOf(data: Dataset, adj: Adjacency, kappa: int, runSelection: bool, ln: real -> real,
    dataColumns: seq<string>, foldCol: string, rootPath: seq<Segment>, f: FoldLabel,
    test: seq<Idx>, reduced: map<FoldLabel, Float>, target: map<FoldLabel, Float>, b: Buffers)
    requires WellFormed(data) && Valid(adj) && (forall i :: i in data.rows ==> i in adj.positive)
    requires test == Group(data, data.index, f)
    requires reduced == ReducedSills(data, IndexTrain(data, test), test) && target == TargetSills(data, IndexTrain(data, test), test)
    requires Distinct(test) && SillsCover(data, test, reduced, target)
    requires b == FoldBuffers(data, adj, kappa, runSelection, ln, reduced, target, test)
    ensures var columns := WithoutColumns(dataColumns, [X1DimCol, foldCol]);
      GbscvFoldOutput(data, adj, kappa, runSelection, ln, dataColumns, foldCol, rootPath, f)
      == FoldOutput(f, MethodDir(rootPath, FoldsName(runSelection)) + [FoldDir(f)],
        SplitRecord(b.train, test, b.removing, Discarded(data, b.train, test, b.removing)), FoldTable(data, b.train), columns, columns)
  {
  }

  /**
   * A graph-based fold, whatever sills it was grown with, is a record of a fold generator (its
   * test set is the fold's rows, train and buffer are disjoint rows of the rest, discarded is the
   * complement), in the fold's own folder, with one fold-table entry per training row; the
   * removing buffer is duplicate-free and within the cap of fold labels, and without a selection
   * buffer nothing is discarded.
   */
  lemma FoldOutputFacts(data: Dataset, adj: Adjacency, kappa: int, runSelection: bool, ln: real -> real,
    dataColumns: seq<string>, foldCol: string, rootPath: seq<Segment>,
    reduced: map<FoldLabel, Float>, target: map<FoldLabel, Float>, f: FoldLabel)
    requires WellFormed(data) && Valid(adj) && (forall i :: i in data.rows ==> i in adj.positive)
    requires SillsCover(data, Group(data, data.index, f), reduced, target)
    ensures var o := FoldOutputWith(data, adj, kappa, runSelection, ln, dataColumns, foldCol, rootPath, reduced, target, f);
      var rec := o.record;
      o.fold == f && o.dir == MethodDir(rootPath, FoldsName(runSelection)) + [FoldDir(f)]
      && SplitOf(data, f, rec) && Distinct(rec.train) && Distinct(rec.removingBuffer)
      && |o.foldTable| == |rec.train|
      && (rec.removingBuffer == [] || |FoldSet(data, rec.removingBuffer)| <= NFoldNeighbourhood(data, adj, rec.test) * kappa)
      && (!runSelection ==> rec.discarded == [])
  {
    var test := Group(data, data.index, f);
    var b := FoldBuffers(data, adj, kappa, runSelection, ln, reduced, target, test);
    FoldBuffersRows(data, adj, kappa, runSelection, ln, reduced, target, test);
    FoldBuffersCap(data, adj, kappa, runSelection, ln, reduced, target, test);
    FoldOutputWithOf(data, adj, kappa, runSelection, ln, dataColumns, foldCol, rootPath, reduced, target, f, test, b);
    BuffersRecord(data, f, test, b, runSelection);
  }

  /** The fold `FoldOutputWith` builds, in terms of its test set and buffers. */
  lemma FoldOutputWithOf(data: Dataset, adj: Adjacency, kappa: int, runSelection: bool, ln: real -> real,
    dataColumns: seq<string>, foldCol: string, rootPath: seq<Segment>,
    reduced: map<FoldLabel, Float>, target: map<FoldLabel, Float>, f: FoldLabel, test: seq<Idx>, b: Buffers)
    requires WellFormed(data) && Valid(adj) && (forall i :: i in data.rows ==> i in adj.positive)
    requires test == Group(data, data.index, f) && SillsCover(data, test, reduced, target)
    requires b == FoldBuffers(data, adj, kappa, runSelection, ln, reduced, target, test)
    ensures var o := FoldOutputWith(data, adj, kappa, runSelection, ln, dataColumns, foldCol, rootPath, reduced, target, f);
      o.fold == f && o.dir == MethodDir(rootPath, FoldsName(runSelection)) + [FoldDir(f)]
      && o.record == SplitRecord(b.train, test, b.removing, Discarded(data, b.train, test, b.removing))
      && o.foldTable == FoldTable(data, b.train)
  {
  }

  /**
   * Buffers that are duplicate-free, disjoint rows of the rest of the data make a record of a
   * fold generator; when train is the rest less the removing buffer, nothing is discarded.
   */
  lemma BuffersRecord(data: Dataset, f: FoldLabel, test: seq<Idx>, b: Buffers, runSelection: bool)
    requires WellFormed(data) && test == Group(data, data.index, f)
    requires forall i :: i in b.train ==> i in IndexTrain(data, test)
    requires forall i :: i in b.removing ==> i in IndexTrain(data, test) && i !in b.train
    requires !runSelection ==> b.train == Without(IndexTrain(data, test), b.removing)
    ensures var rec := SplitRecord(b.train, test, b.removing, Discarded(data, b.train, test, b.removing));
      SplitOf(data, f, rec) && |FoldTable(data, b.train)| == |b.train| && (!runSelection ==> rec.discarded == [])
  {
    if !runSelection {
      NothingDiscarded(data, test, b.removing);
    }
  }

  /**
   * With the sills `_initiate_buffers_sills` sets, a graph-based fold keeps its buffers within the
   * BFS tree of its test set: the removing buffer, and with a selection buffer every training row.
   */
  lemma GbscvFoldWithinTree(data: Dataset, adj: Adjacency, kappa: int, runSelection: bool, ln: real -> real,
    dataColumns: seq<string>, foldCol: string, rootPath: seq<Segment>, f: FoldLabel)
    requires WellFormed(data) && Valid(adj) && (forall i :: i in data.rows ==> i in adj.positive)
    requires LogPositive(ln)
    ensures var rec := GbscvFoldOutput(data, adj, kappa, runSelection, ln, dataColumns, foldCol, rootPath, f).record;
      var tree := FoldTree(data, adj, rec.test);
      (!runSelection ==> forall i :: i in rec.removingBuffer ==> i in tree)
      && (runSelection ==> forall i :: i in rec.train + rec.removingBuffer ==> i in tree)
  {
    var test := Group(data, data.index, f);
    var rest := IndexTrain(data, test);
    FoldBuffersWithinTree(data, adj, kappa, runSelection, ln, ReducedSills(data, rest, test), TargetSills(data, rest, test), test);
  }
}
