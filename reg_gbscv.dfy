/**
 * The computations of the regularised graph-based fold generator: the geo-weighted semivariogram
 * of a node against the test set, the propagation over every node the test set reaches, the
 * selection and removing buffers, and the sill dictionaries.
 */
module RegGbscv {
  import opened Seqs
  import opened Floats
  import opened Stats
  import opened Frames
  import opened Graph
  import opened Scv
  import opened Gbscv

  /** The weight matrix: the weight of a (row, column) pair of adjacency labels. */
  type Weights = (Idx, Idx) -> real

  /** The weight matrix `_init_fields` builds in "Sparse" mode: every entry is 1. */
  function SparseWeights(): Weights
  {
    (t, n) => 1.0
  }

  /** `_get_neighbors_weights`: the weights of the test rows against the column `n`, in test order. */
  function WeightColumn(w: Weights, test: seq<Idx>, n: Idx): (r: seq<real>)
    ensures |r| == |test|
    ensures forall k :: 0 <= k < |test| ==> r[k] == w(test[k], n)
  {
    seq(|test|, k requires 0 <= k < |test| => w(test[k], n))
  }

  /**
   * `_calculate_similarity_matrix` for one node: the squared difference of each test value with
   * the node's value, in test order.
   */
  function NodeSimilarity(testValues: seq<real>, x: real): (r: seq<real>)
    ensures |r| == |testValues|
    ensures forall k :: 0 <= k < |r| ==> r[k] >= 0.0
  {
    Squares(Deviations(testValues, x))
  }

  /** The regularised differences `sim - kappa * (1 - w) * sim`, entry by entry. */
  function Regularised(similarity: seq<real>, weights: seq<real>, kappa: real): (r: seq<real>)
    requires |similarity| == |weights|
    ensures |r| == |similarity|
    ensures forall k :: 0 <= k < |r| ==> r[k] == similarity[k] - kappa * (1.0 - weights[k]) * similarity[k]
  {
    seq(|similarity|, k requires 0 <= k < |similarity| => similarity[k] - kappa * (1.0 - weights[k]) * similarity[k])
  }

  /**
   * With weights and `kappa` between 0 and 1, regularising only shrinks a squared difference: each
   * term stays between 0 and the unregularised one, and equals it where the weight is 1.
   */
  lemma RegularisedShrinks(similarity: seq<real>, weights: seq<real>, kappa: real)
    requires |similarity| == |weights|
    requires 0.0 <= kappa <= 1.0
    requires forall k :: 0 <= k < |weights| ==> 0.0 <= weights[k] <= 1.0
    requires forall k :: 0 <= k < |similarity| ==> similarity[k] >= 0.0
    ensures forall k :: 0 <= k < |similarity| ==>
      0.0 <= Regularised(similarity, weights, kappa)[k] <= similarity[k]
      && (weights[k] == 1.0 ==> Regularised(similarity, weights, kappa)[k] == similarity[k])
  {
    var r := Regularised(similarity, weights, kappa);
    forall k | 0 <= k < |similarity|
      ensures 0.0 <= r[k] <= similarity[k] && (weights[k] == 1.0 ==> r[k] == similarity[k])
    {
      var s, c := similarity[k], kappa * (1.0 - weights[k]);
      ProductBounds(kappa, 1.0 - weights[k]);
      ProductBounds(c, s);
      ProductBounds(1.0 - c, s);
      assert r[k] == s - c * s == (1.0 - c) * s;
      if weights[k] == 1.0 {
        assert c == kappa * 0.0 == 0.0;
      }
    }
  }

  /** The product of two non-negative reals is non-negative, and at most the second when the first is at most 1. */
  lemma ProductBounds(a: real, b: real)
    requires 0.0 <= a && 0.0 <= b
    ensures 0.0 <= a * b
    ensures a <= 1.0 ==> a * b <= b
  {
    if a <= 1.0 {
      assert b - a * b == (1.0 - a) * b;
    }
  }

  /** `_calculate_gamma`: the sum of the regularised differences over twice their number. */
  function RegGamma(similarity: seq<real>, weights: seq<real>, kappa: real): Float
    requires |similarity| == |weights|
  {
    Div(Fin(Sum(Regularised(similarity, weights, kappa))), Fin(2.0 * |similarity| as real))
  }

  /** The unweighted semivariogram of a list of squared differences: their sum over twice their number. */
  function PlainGamma(similarity: seq<real>): Float
  {
    Div(Fin(Sum(similarity)), Fin(2.0 * |similarity| as real))
  }

  /**
   * Without regularisation (`kappa = 0`) or with unit weights, the regularised semivariogram is
   * the unweighted one.
   */
  lemma RegGammaPlain(similarity: seq<real>, weights: seq<real>, kappa: real)
    requires |similarity| == |weights|
    requires kappa == 0.0 || forall k :: 0 <= k < |weights| ==> weights[k] == 1.0
    ensures RegGamma(similarity, weights, kappa) == PlainGamma(similarity)
  {
    var r := Regularised(similarity, weights, kappa);
    forall k | 0 <= k < |r| ensures r[k] == similarity[k] {
      if kappa == 0.0 {
        assert kappa * (1.0 - weights[k]) == 0.0;
      } else {
        assert 1.0 - weights[k] == 0.0;
      }
    }
    assert r == similarity;
  }

  /** The semivariogram `_calculate_gamma_by_node` gives node `n` for attribute `a`. */
  function NodeGamma(data: Dataset, test: seq<Idx>, w: Weights, kappa: real, a: Attribute, n: Idx): Float
    requires forall i :: i in test ==> i in data.rows
    requires n in data.rows
  {
    RegGamma(NodeSimilarity(Values(data, test, a), Value(data.rows[n], a)), WeightColumn(w, test, n), kappa)
  }

  /**
   * With the sparse weight matrix a node's semivariogram is the unweighted one, and against a
   * non-empty test set it is a finite value that is not negative.
   */
  lemma SparseNodeGamma(data: Dataset, test: seq<Idx>, kappa: real, a: Attribute, n: Idx)
    requires forall i :: i in test ==> i in data.rows
    requires n in data.rows
    ensures var similarity := NodeSimilarity(Values(data, test, a), Value(data.rows[n], a));
      NodeGamma(data, test, SparseWeights(), kappa, a, n) == PlainGamma(similarity)
      && (test != [] ==> NonNegative(PlainGamma(similarity)))
  {
    var similarity := NodeSimilarity(Values(data, test, a), Value(data.rows[n], a));
    RegGammaPlain(similarity, WeightColumn(SparseWeights(), test, n), kappa);
    if test != [] {
      SumNonNegative(similarity);
      QuotientSign(Sum(similarity), 2.0 * |similarity| as real);
    }
  }

  /** Every dataset row's semivariogram for attribute `a`, as a function of the node. */
  function NodeScore(data: Dataset, test: seq<Idx>, w: Weights, kappa: real, a: Attribute): Idx -> Float
    requires forall i :: i in test ==> i in data.rows
  {
    n => if n in data.rows then NodeGamma(data, test, w, kappa, a, n) else NaN
  }

  /**
   * `score` gives every dataset row its semivariogram; the trigger keeps the definition of a
   * node's semivariogram out of sight until a proof names it.
   */
  ghost predicate ScoresAre(data: Dataset, test: seq<Idx>, w: Weights, kappa: real, a: Attribute, score: Idx -> Float)
  {
    (forall i :: i in test ==> i in data.rows)
    && forall n {:trigger NodeGamma(data, test, w, kappa, a, n)} ::
      n in data.rows ==> score(n) == NodeGamma(data, test, w, kappa, a, n)
  }

  lemma NodeScoreAre(data: Dataset, test: seq<Idx>, w: Weights, kappa: real, a: Attribute)
    requires forall i :: i in test ==> i in data.rows
    ensures ScoresAre(data, test, w, kappa, a, NodeScore(data, test, w, kappa, a))
  {
  }

  /** `{n: score(n) for n in nodes if n in train}`, in the order of `nodes`. */
  function Scores(nodes: seq<Idx>, train: seq<Idx>, score: Idx -> Float): seq<(Idx, Float)>
    decreases |nodes|
  {
    if nodes == [] then []
    else (if nodes[0] in train then [(nodes[0], score(nodes[0]))] else []) + Scores(nodes[1..], train, score)
  }

  /** The keys of a dictionary, in insertion order. */
  function Keys(scored: seq<(Idx, Float)>): (r: seq<Idx>)
    ensures |r| == |scored|
    ensures forall k :: 0 <= k < |r| ==> r[k] == scored[k].0
  {
    seq(|scored|, k requires 0 <= k < |scored| => scored[k].0)
  }

  /** Scoring two lists one after the other scores their concatenation. */
  lemma {:induction false} ScoresConcat(a: seq<Idx>, b: seq<Idx>, train: seq<Idx>, score: Idx -> Float)
    ensures Scores(a + b, train, score) == Scores(a, train, score) + Scores(b, train, score)
    decreases |a|
  {
    if a == [] {
      assert a + b == b;
    } else {
      var x := a[0];
      var head := if x in train then [(x, score(x))] else [];
      assert (a + b)[0] == x && (a + b)[1..] == a[1..] + b;
      assert Scores(a + b, train, score) == head + Scores(a[1..] + b, train, score);
      assert Scores(a, train, score) == head + Scores(a[1..], train, score);
      ScoresConcat(a[1..], b, train, score);
      assert head + (Scores(a[1..], train, score) + Scores(b, train, score))
        == (head + Scores(a[1..], train, score)) + Scores(b, train, score);
    }
  }

  lemma KeysConcat(a: seq<(Idx, Float)>, b: seq<(Idx, Float)>)
    ensures Keys(a + b) == Keys(a) + Keys(b)
  {
  }

  /** The scores are keyed by exactly the training nodes of `nodes`, in the order of `nodes`. */
  lemma {:induction false} ScoresKeyOrder(nodes: seq<Idx>, train: seq<Idx>, score: Idx -> Float)
    ensures Keys(Scores(nodes, train, score)) == Keep(nodes, train)
    decreases |nodes|
  {
    if nodes != [] {
      ScoresKeyOrder(nodes[1..], train, score);
      FilterStep(nodes, x => x in train);
      var head := if nodes[0] in train then [(nodes[0], score(nodes[0]))] else [];
      var rest := Scores(nodes[1..], train, score);
      KeysConcat(head, rest);
    }
  }

  /**
   * The scores are keyed by exactly the training nodes of `nodes`, in the order of `nodes`, once
   * each when `nodes` has no duplicate.
   */
  lemma ScoresKeys(nodes: seq<Idx>, train: seq<Idx>, score: Idx -> Float)
    ensures Keys(Scores(nodes, train, score)) == Keep(nodes, train)
    ensures Distinct(nodes) ==> Distinct(Keys(Scores(nodes, train, score)))
  {
    ScoresKeyOrder(nodes, train, score);
    KeepWithoutOrder(nodes, train);
  }

  /** Each entry of the scores is a training node of `nodes` with its own score. */
  lemma {:induction false} ScoresEntries(nodes: seq<Idx>, train: seq<Idx>, score: Idx -> Float)
    ensures forall p :: p in Scores(nodes, train, score) ==> p.0 in nodes && p.0 in train && p.1 == score(p.0)
    decreases |nodes|
  {
    if nodes != [] {
      ScoresEntries(nodes[1..], train, score);
      assert forall x :: x in nodes[1..] ==> x in nodes;
    }
  }

  /** Scoring the training nodes of a list, or the whole list, gives the same scores. */
  lemma {:induction false} ScoresOfKept(nodes: seq<Idx>, train: seq<Idx>, score: Idx -> Float)
    ensures Scores(Keep(nodes, train), train, score) == Scores(nodes, train, score)
    decreases |nodes|
  {
    if nodes != [] {
      FilterStep(nodes, x => x in train);
      ScoresOfKept(nodes[1..], train, score);
      if nodes[0] in train {
        var kept := [nodes[0]] + Keep(nodes[1..], train);
        assert kept[0] == nodes[0] && kept[1..] == Keep(nodes[1..], train);
      }
    }
  }

  /** `[node for node, gamma in scored.items() if gamma < sill]`. */
  function BelowSill(scored: seq<(Idx, Float)>, sill: Float): (r: seq<Idx>)
    ensures forall x :: x in r <==> exists p :: p in scored && p.0 == x && Lt(p.1, sill)
    decreases |scored|
  {
    if scored == [] then []
    else (if Lt(scored[0].1, sill) then [scored[0].0] else []) + BelowSill(scored[1..], sill)
  }

  /** The training nodes of `nodes` whose score is strictly below `sill`, in the order of `nodes`. */
  function Selected(nodes: seq<Idx>, train: seq<Idx>, score: Idx -> Float, sill: Float): (r: seq<Idx>)
    ensures forall x :: x in r <==> x in nodes && x in train && Lt(score(x), sill)
  {
    Filter(nodes, x => x in train && Lt(score(x), sill))
  }

  /**
   * Selecting from the scores of `nodes` keeps exactly the training nodes whose score is strictly
   * below the sill, in the order of `nodes`.
   */
  lemma {:induction false} BelowSillScores(nodes: seq<Idx>, train: seq<Idx>, score: Idx -> Float, sill: Float)
    ensures BelowSill(Scores(nodes, train, score), sill) == Selected(nodes, train, score, sill)
    decreases |nodes|
  {
    if nodes != [] {
      var x := nodes[0];
      var rest := Scores(nodes[1..], train, score);
      BelowSillScores(nodes[1..], train, score, sill);
      FilterStep(nodes, y => y in train && Lt(score(y), sill));
      if x in train {
        var scored := [(x, score(x))] + rest;
        assert Scores(nodes, train, score) == scored;
        assert scored[0] == (x, score(x)) && scored[1..] == rest;
        assert BelowSill(scored, sill) == (if Lt(score(x), sill) then [x] else []) + BelowSill(rest, sill);
      } else {
        assert Scores(nodes, train, score) == [] + rest == rest;
        assert !(x in train && Lt(score(x), sill));
      }
    }
  }

  /** `_calculate_selection_buffer`: the nodes whose score is below the attribute's whole-dataset variance. */
  function SelectionBuffer(data: Dataset, nodes: seq<(Idx, Float)>, a: Attribute): (r: seq<Idx>)
    requires WellFormed(data)
    ensures forall x :: x in r <==> exists p :: p in nodes && p.0 == x && Lt(p.1, GlobalVariance(data, a))
  {
    BelowSill(nodes, GlobalVariance(data, a))
  }

  /**
   * `_calculate_removing_buffer`: the nodes whose target score is below the variance of the test
   * set's target. The scores of the reduced attribute are filtered too, and the result dropped.
   */
  function RemovingBuffer(data: Dataset, test: seq<Idx>, nodesTarget: seq<(Idx, Float)>, nodesReduced: seq<(Idx, Float)>): (r: seq<Idx>)
    requires forall i :: i in test ==> i in data.rows
    ensures forall x :: x in r <==> exists p :: p in nodesTarget && p.0 == x && Lt(p.1, Variance(Values(data, test, Target)))
  {
    var reduced := BelowSill(nodesReduced, Variance(Values(data, test, Reduced)));
    BelowSill(nodesTarget, Variance(Values(data, test, Target)))
  }

  /** The buffer after `r` rounds of `_propagate_variance`: the first `r` rings around the test set, ring by ring. */
  function Propagated(g: Adjacency, test: seq<Idx>, r: nat): seq<Idx>
    requires Valid(g) && forall i :: i in test ==> i in g.positive
  {
    Grow(g, test, r)[|test|..]
  }

  /**
   * The round `_propagate_variance` stops at, searching from round `r`: the first round whose
   * buffer holds at least `n` nodes. Once every non-empty ring is in the buffer no round adds a
   * node, and the loop of the source never ends (`Diverges`).
   */
  function Rounds(g: Adjacency, test: seq<Idx>, n: nat, r: nat): Outcome<nat>
    requires Valid(g) && forall i :: i in test ==> i in g.positive
    decreases Layers(g, test) - r
  {
    if |Propagated(g, test, r)| >= n then Ok(r)
    else if r >= Layers(g, test) then Fail(Diverges)
    else Rounds(g, test, n, r + 1)
  }

  /**
   * One round of `_propagate_variance` on a short buffer: the next ring is appended, and the
   * search either goes on from the next round or, when that ring is empty, never ends.
   */
  lemma RoundsStep(g: Adjacency, test: seq<Idx>, n: nat, r: nat)
    requires Valid(g) && forall i :: i in test ==> i in g.positive
    requires |Propagated(g, test, r)| < n
    ensures Grow(g, test, r + 1) == Grow(g, test, r) + Ring(g, test, r + 1)
    ensures Ring(g, test, r + 1) == [] ==> Rounds(g, test, n, r) == Fail(Diverges)
    ensures Ring(g, test, r + 1) != [] ==> Rounds(g, test, n, r) == Rounds(g, test, n, r + 1)
  {
    GrowRing(g, test, r + 1);
    LayersAreRings(g, test, r + 1);
  }

  /** The buffer `_propagate_variance` ends with for a training set of `n` rows. */
  function Propagation(g: Adjacency, test: seq<Idx>, n: nat): Outcome<seq<Idx>>
    requires Valid(g) && forall i :: i in test ==> i in g.positive
  {
    match Rounds(g, test, n, 0)
    case Ok(r) => Ok(Propagated(g, test, r))
    case Fail(e) => Fail(e)
  }

  /** Every node the test set reaches, ring by ring. */
  function Reach(g: Adjacency, test: seq<Idx>): seq<Idx>
    requires Valid(g) && forall i :: i in test ==> i in g.positive
  {
    Propagated(g, test, Layers(g, test))
  }

  /** The dictionary `_propagate_variance` returns: the scores of the training nodes of the buffer. */
  function PropagatedScores(g: Adjacency, test: seq<Idx>, train: seq<Idx>, score: Idx -> Float): Outcome<seq<(Idx, Float)>>
    requires Valid(g) && forall i :: i in test ==> i in g.positive
  {
    match Propagation(g, test, |train|)
    case Ok(b) => Ok(Scores(b, train, score))
    case Fail(e) => Fail(e)
  }

  /** The buffer after `r` rounds lists graph nodes outside the test set, each once. */
  lemma PropagatedFresh(g: Adjacency, test: seq<Idx>, r: nat)
    requires Valid(g) && (forall i :: i in test ==> i in g.positive) && Distinct(test)
    ensures Distinct(Propagated(g, test, r))
    ensures forall x :: x in Propagated(g, test, r) ==> x !in test && x in g.labels
  {
    var grown := Grow(g, test, r);
    GrowDistinct(g, test, r);
    var b := Propagated(g, test, r);
    assert grown == test + b;
    forall x | x in b ensures x !in test && x in g.labels {
      var k :| 0 <= k < |b| && b[k] == x;
      assert grown[|test| + k] == x;
      forall l | 0 <= l < |test| ensures test[l] != x {
        assert grown[l] == test[l];
      }
      assert x in grown;
    }
  }

  /** More rounds give a longer buffer that starts with the shorter one. */
  lemma PropagatedPrefix(g: Adjacency, test: seq<Idx>, r: nat, m: nat)
    requires Valid(g) && (forall i :: i in test ==> i in g.positive) && r <= m
    ensures |Propagated(g, test, r)| <= |Propagated(g, test, m)|
    ensures forall x :: x in Propagated(g, test, r) ==> x in Propagated(g, test, m)
  {
    GrowPrefix(g, test, r, m);
    var p, q := Propagated(g, test, r), Propagated(g, test, m);
    forall x | x in p ensures x in q {
      var k :| 0 <= k < |p| && p[k] == x;
      assert Grow(g, test, r)[|test| + k] == x;
      assert q[k] == x;
    }
  }

  /**
   * From a round `r` no later than the last non-empty ring, whose previous round was short, the
   * search stops at the first round whose buffer holds `n` nodes, and it diverges exactly when
   * even every reachable node together falls short of `n`.
   */
  lemma {:induction false} RoundsFacts(g: Adjacency, test: seq<Idx>, n: nat, r: nat)
    requires Valid(g) && forall i :: i in test ==> i in g.positive
    requires r <= Layers(g, test)
    requires r == 0 || |Propagated(g, test, r - 1)| < n
    ensures var s := Rounds(g, test, n, r);
      (s.Ok? ==>
        r <= s.value <= Layers(g, test) && |Propagated(g, test, s.value)| >= n
        && (s.value == 0 || |Propagated(g, test, s.value - 1)| < n))
      && (s.Fail? <==> |Reach(g, test)| < n)
      && (s.Fail? ==> s.error == Diverges)
    decreases Layers(g, test) - r
  {
    if |Propagated(g, test, r)| >= n {
      PropagatedPrefix(g, test, r, Layers(g, test));
    } else if r < Layers(g, test) {
      RoundsFacts(g, test, n, r + 1);
    }
  }

  /**
   * `_propagate_variance` ends with a buffer of at least `n` graph nodes outside the test set,
   * each listed once and each reachable from the test set, made of whole rings: the rings up to
   * the first round whose buffer holds `n` nodes. It never ends exactly when fewer than `n` nodes
   * are reachable.
   */
  lemma PropagationFacts(g: Adjacency, test: seq<Idx>, n: nat)
    requires Valid(g) && (forall i :: i in test ==> i in g.positive) && Distinct(test)
    ensures var p := Propagation(g, test, n);
      (p.Ok? ==>
        |p.value| >= n && Distinct(p.value)
        && (forall x :: x in p.value ==> x !in test && x in g.labels && x in Reach(g, test))
        && exists r: nat :: p.value == Propagated(g, test, r) && (r == 0 || |Propagated(g, test, r - 1)| < n))
      && (p.Fail? <==> |Reach(g, test)| < n)
      && (p.Fail? ==> p.error == Diverges)
  {
    RoundsFacts(g, test, n, 0);
    var s := Rounds(g, test, n, 0);
    if s.Ok? {
      PropagatedFresh(g, test, s.value);
      PropagatedPrefix(g, test, s.value, Layers(g, test));
    }
  }

  /**
   * `_calculate_gamma_by_node`: the training nodes among `neighbors`, in their order, each with
   * its semivariogram against the test set.
   */
  method GammaByNode(data: Dataset, test: seq<Idx>, train: seq<Idx>, w: Weights, kappa: real, a: Attribute,
    neighbors: seq<Idx>, ghost score: Idx -> Float) returns (scored: seq<(Idx, Float)>)
    requires ScoresAre(data, test, w, kappa, a, score)
    requires forall i :: i in train ==> i in data.rows
    ensures scored == Scores(neighbors, train, score)
  {
    var kept := Keep(neighbors, train);
    var testValues := Values(data, test, a);
    scored := [];
    for k := 0 to |kept|
      invariant scored == Scores(kept[..k], train, score)
    {
      var n := kept[k];
      assert n in kept;
      var similarity := NodeSimilarity(testValues, Value(data.rows[n], a));
      var geoWeights := WeightColumn(w, test, n);
      var gamma := RegGamma(similarity, geoWeights, kappa);
      assert gamma == NodeGamma(data, test, w, kappa, a, n);
      ScoresConcat(kept[..k], [n], train, score);
      assert kept[..k + 1] == kept[..k] + [n];
      scored := scored + [(n, gamma)];
    }
    assert kept[..|kept|] == kept;
    ScoresOfKept(neighbors, train, score);
  }

  /** The neighbours of the test set and the buffer after `rounds` rounds: the next ring. */
  method NextRing(g: Adjacency, test: seq<Idx>, buffer: seq<Idx>, n: nat, ghost rounds: nat) returns (h: seq<Idx>)
    requires Valid(g) && (forall i :: i in test ==> i in g.positive)
    requires test + buffer == Grow(g, test, rounds) && |buffer| < n
    ensures h == [] ==> Rounds(g, test, n, rounds) == Fail(Diverges)
    ensures h != [] ==> Rounds(g, test, n, rounds) == Rounds(g, test, n, rounds + 1)
    ensures h != [] ==> test + (buffer + h) == Grow(g, test, rounds + 1) && rounds < Layers(g, test)
  {
    assert Propagated(g, test, rounds) == buffer;
    RoundsStep(g, test, n, rounds);
    h := Neighbors(g, test + buffer);
    if h != [] {
      LayersAreRings(g, test, rounds + 1);
    }
  }

  /**
   * `_propagate_variance`: while the buffer is shorter than the training set, the neighbours of
   * the test set and the buffer are scored and appended to the buffer.
   */
  method PropagateVariance(data: Dataset, g: Adjacency, test: seq<Idx>, train: seq<Idx>, w: Weights, kappa: real,
    a: Attribute, ghost score: Idx -> Float) returns (r: Outcome<seq<(Idx, Float)>>)
    requires Valid(g) && (forall i :: i in test ==> i in g.positive)
    requires ScoresAre(data, test, w, kappa, a, score)
    requires forall i :: i in train ==> i in data.rows
    ensures r == PropagatedScores(g, test, train, score)
  {
    var buffer: seq<Idx> := [];
    var nodesGamma: seq<(Idx, Float)> := [];
    ghost var rounds: nat := 0;
    while |buffer| < |train|
      invariant test + buffer == Grow(g, test, rounds)
      invariant nodesGamma == Scores(buffer, train, score)
      invariant Rounds(g, test, |train|, rounds) == Rounds(g, test, |train|, 0)
      decreases Layers(g, test) - rounds
    {
      var neighbors := NextRing(g, test, buffer, |train|, rounds);
      if neighbors == [] {
        return Fail(Diverges);
      }
      var scored := GammaByNode(data, test, train, w, kappa, a, neighbors, score);
      ScoresConcat(buffer, neighbors, train, score);
      nodesGamma := nodesGamma + scored;
      buffer := buffer + neighbors;
      rounds := rounds + 1;
    }
    assert Propagated(g, test, rounds) == buffer;
    r := Ok(nodesGamma);
  }

  /**
   * The raw reduced sill of a fold: the variance of the fold's values of `X_1DIM` followed by
   * the test set's.
   */
  function RawSill(data: Dataset, test: seq<Idx>): seq<real> -> Float
    requires forall i :: i in test ==> i in data.rows
  {
    foldValues => Variance(foldValues + Values(data, test, Reduced))
  }

  /** The raw reduced sill of training fold `f`. */
  function RawSillOf(data: Dataset, train: seq<Idx>, test: seq<Idx>): FoldLabel -> Float
    requires forall i :: i in train ==> i in data.rows
    requires forall i :: i in test ==> i in data.rows
  {
    f => RawSill(data, test)(Values(data, Group(data, train, f), Reduced))
  }

  /** Two dictionaries that agree on the keys pick the same `>`-maximal key. */
  lemma {:induction false} ArgMaxAgree(keys: seq<FoldLabel>, d: map<FoldLabel, Float>, e: map<FoldLabel, Float>)
    requires keys != []
    requires forall f :: f in keys ==> f in d && f in e && d[f] == e[f]
    ensures ArgMax(keys, d) == ArgMax(keys, e)
    decreases |keys|
  {
    if |keys| > 1 {
      var init := keys[..|keys| - 1];
      assert forall f :: f in init ==> f in keys;
      ArgMaxAgree(init, d, e);
    }
  }

  /**
   * In the dictionary that sets `d[f] = sill(f)` for each fold in turn, `max(d, key=d.get)` holds
   * the running `>`-maximum of the sills.
   */
  lemma {:induction false} ArgMaxRunning(keys: seq<FoldLabel>, sill: FoldLabel -> Float)
    requires keys != [] && Distinct(keys)
    ensures forall f :: f in keys ==> f in SillMap(keys, sill)
    ensures SillMap(keys, sill)[ArgMax(keys, SillMap(keys, sill))] == RunningMax(SillSeq(keys, sill))
    decreases |keys|
  {
    SillMapFacts(keys, sill);
    var n := |keys| - 1;
    var init, last := keys[..n], keys[n];
    var d := SillMap(keys, sill);
    assert keys == init + [last];
    if n > 0 {
      ArgMaxRunning(init, sill);
      SillMapFacts(init, sill);
      assert last !in init;
      ArgMaxAgree(init, d, SillMap(init, sill));
    }
  }

  /** `for key in keys: d[key] = top`: every key of `order` maps to `top`; the other entries stay. */
  method AssignEach(order: seq<FoldLabel>, d: map<FoldLabel, Float>, top: Float) returns (updated: map<FoldLabel, Float>)
    ensures updated == d + map g | g in Elems(order) :: top
  {
    updated := d;
    for k := 0 to |order|
      invariant updated == d + map g | g in Elems(order[..k]) :: top
    {
      assert Elems(order[..k + 1]) == Elems(order[..k]) + {order[k]};
      updated := updated[order[k] := top];
    }
    assert order[..|order|] == order;
  }

  /**
   * `_calculate_selection_buffer_sill` on the dictionaries `sill_reduced`, whose keys were inserted
   * in the order `order`, and `sill_max_reduced`: sets `sill_reduced[f] = v`, then sets every key of
   * `sill_reduced` in `sill_max_reduced` to the value of the first `>`-maximal reduced sill; older
   * keys of `sill_max_reduced` stay as they are.
   */
  method RegSelectionUpdate(order: seq<FoldLabel>, reduced: map<FoldLabel, Float>, maxReduced: map<FoldLabel, Float>,
    f: FoldLabel, v: Float) returns (order': seq<FoldLabel>, reduced': map<FoldLabel, Float>, maxReduced': map<FoldLabel, Float>)
    requires Distinct(order) && Elems(order) == reduced.Keys
    ensures Distinct(order') && Elems(order') == reduced'.Keys
    ensures order' == SelectionOrder(order, reduced, f)
    ensures reduced' == reduced[f := v]
    ensures maxReduced' == maxReduced + Levelled(order, reduced, f, v)
  {
    order' := order;
    if f !in reduced {
      DistinctConcat(order, [f]);
      order' := order + [f];
    }
    reduced' := reduced[f := v];
    assert Elems(order') == reduced'.Keys;
    var best := ArgMax(order', reduced');
    maxReduced' := AssignEach(order', maxReduced, reduced'[best]);
  }

  /** The first `j + 1` of distinct keys are distinct, and the last of them is not among the others. */
  lemma PrefixDistinct(keys: seq<FoldLabel>, j: nat)
    requires j < |keys| && Distinct(keys)
    ensures Distinct(keys[..j + 1]) && keys[j] !in keys[..j]
  {
    var next := keys[..j + 1];
    assert forall a :: 0 <= a < |next| ==> next[a] == keys[a];
    assert forall l :: 0 <= l < j ==> keys[..j][l] == keys[l];
  }

  /** One selection update of the sill loop, in closed form: the levelled map of one more fold. */
  lemma LevelledStep(keys: seq<FoldLabel>, j: nat, sill: FoldLabel -> Float)
    requires j < |keys| && Distinct(keys)
    ensures Elems(keys[..j]) == SillMap(keys[..j], sill).Keys
    ensures Levelled(keys[..j], SillMap(keys[..j], sill), keys[j], sill(keys[j])) == LevelledMap(keys[..j + 1], sill)
  {
    var prev, next, f := keys[..j], keys[..j + 1], keys[j];
    var d := SillMap(prev, sill);
    SillMapFacts(prev, sill);
    assert Elems(prev) == d.Keys by {
      forall x ensures x in Elems(prev) <==> x in d.Keys {
        assert x in d.Keys <==> x in d;
      }
    }
    SillPrefix(keys, j, sill);
    PrefixDistinct(keys, j);
    ArgMaxRunning(next, sill);
    var e := d[f := sill(f)];
    assert e == SillMap(next, sill);
    assert SelectionOrder(prev, d, f) == next;
    var top := RunningMax(SillSeq(next, sill));
    assert e[ArgMax(next, e)] == top;
    assert Levelled(prev, d, f, sill(f)) == map g | g in e :: top;
    assert forall g :: g in e <==> g in next;
  }

  /**
   * The loop of `_initiate_buffers_sills` over the groups `keys` of the training set: each fold gets
   * its reduced sill and the selection update, then its target sill. Afterwards `sill_target` and
   * `sill_reduced` map each fold to its own sill, and every fold's entry of `sill_max_reduced`
   * holds the running `>`-maximum of the folds' reduced sills, over what it held before.
   */
  method FillRegSills(keys: seq<FoldLabel>, target: FoldLabel -> Float, reduced: FoldLabel -> Float, maxBefore: map<FoldLabel, Float>)
    returns (order: seq<FoldLabel>, targetMap: map<FoldLabel, Float>, reducedMap: map<FoldLabel, Float>, maxMap: map<FoldLabel, Float>)
    requires Distinct(keys)
    ensures order == keys && Elems(order) == reducedMap.Keys
    ensures targetMap == SillMap(keys, target)
    ensures reducedMap == SillMap(keys, reduced)
    ensures maxMap == maxBefore + LevelledMap(keys, reduced)
  {
    order, targetMap, reducedMap, maxMap := [], map[], map[], maxBefore;
    assert maxBefore + LevelledMap([], reduced) == maxBefore;
    for j := 0 to |keys|
      invariant order == keys[..j] && Distinct(order) && Elems(order) == reducedMap.Keys
      invariant targetMap == SillMap(keys[..j], target)
      invariant reducedMap == SillMap(keys[..j], reduced)
      invariant maxMap == maxBefore + LevelledMap(keys[..j], reduced)
    {
      var f := keys[j];
      LevelledStep(keys, j, reduced);
      SillPrefix(keys, j, target);
      SillPrefix(keys, j, reduced);
      OverrideTwice(maxBefore, LevelledMap(keys[..j], reduced), LevelledMap(keys[..j + 1], reduced));
      order, reducedMap, maxMap := RegSelectionUpdate(order, reducedMap, maxMap, f, reduced(f));
      targetMap := targetMap[f := target(f)];
    }
    assert keys[..|keys|] == keys;
  }

  /** Overriding with a map whose keys cover an earlier override's undoes the earlier one. */
  lemma OverrideTwice(base: map<FoldLabel, Float>, first: map<FoldLabel, Float>, second: map<FoldLabel, Float>)
    requires first.Keys <= second.Keys
    ensures (base + first) + second == base + second
  {
  }

  /**
   * After a selection update every fold entered so far holds the same value in `sill_max_reduced`:
   * one of the reduced sills, and no reduced sill is strictly greater.
   */
  lemma MaxReducedIsLargest(order: seq<FoldLabel>, reduced: map<FoldLabel, Float>, maxReduced: map<FoldLabel, Float>, f: FoldLabel, v: Float)
    requires Elems(order) == reduced.Keys
    ensures var after := maxReduced + Levelled(order, reduced, f, v);
      var e := reduced[f := v];
      forall g :: g in e ==> g in after && after[g] == after[f] && after[f] in e.Values && !Gt(e[g], after[f])
  {
    LevelledMaximal(order, reduced, f, v);
  }

  /** The setting of a regularised run: the adjacency matrix has a row for every dataset row. */
  ghost predicate RegSetting(data: Dataset, adj: Adjacency)
  {
    WellFormed(data) && Valid(adj) && (forall i :: i in data.rows ==> i in adj.positive)
  }

  /**
   * The buffers of the fold whose test set is `test`: the scores of the reduced attribute over
   * every other row give the selection buffer; the training set, that buffer with `run_selection`
   * and every other row without, gives the scores of the target and the removing buffer, which
   * then leaves the training set. Either propagation may never end.
   */
  function RegBuffers(data: Dataset, adj: Adjacency, w: Weights, kappa: real, runSelection: bool, test: seq<Idx>): (r: Outcome<Buffers>)
    requires RegSetting(data, adj) && forall i :: i in test ==> i in data.rows
  {
    var rest := IndexTrain(data, test);
    match PropagatedScores(adj, test, rest, NodeScore(data, test, w, kappa, Reduced))
    case Fail(e) => Fail(e)
    case Ok(reducedScores) =>
      var grownOver := if runSelection then SelectionBuffer(data, reducedScores, Reduced) else rest;
      match PropagatedScores(adj, test, grownOver, NodeScore(data, test, w, kappa, Target))
      case Fail(e) => Fail(e)
      case Ok(targetScores) =>
        var removing := RemovingBuffer(data, test, targetScores, reducedScores);
        Ok(Buffers(Without(grownOver, removing), removing))
  }

  /**
   * The buffer kept from the scores of a propagation from a duplicate-free test set: the training
   * nodes of the propagated buffer scored strictly below the sill, each once.
   */
  lemma KeptFromScores(g: Adjacency, test: seq<Idx>, train: seq<Idx>, score: Idx -> Float, sill: Float)
    requires Valid(g) && (forall i :: i in test ==> i in g.positive) && Distinct(test)
    requires PropagatedScores(g, test, train, score).Ok?
    ensures var kept := BelowSill(PropagatedScores(g, test, train, score).value, sill);
      Distinct(kept) && forall x :: x in kept ==> x in train && Lt(score(x), sill)
  {
    var buffer := Propagation(g, test, |train|).value;
    PropagationFacts(g, test, |train|);
    BelowSillScores(buffer, train, score, sill);
    FilterOrder(buffer, x => x in train && Lt(score(x), sill));
  }

  /**
   * The propagations of a fold never end exactly when fewer nodes are reachable from the test set
   * than there are rows outside it.
   */
  lemma RegBuffersFacts(data: Dataset, adj: Adjacency, w: Weights, kappa: real, runSelection: bool, test: seq<Idx>)
    requires RegSetting(data, adj) && (forall i :: i in test ==> i in data.rows) && Distinct(test)
    ensures var b := RegBuffers(data, adj, w, kappa, runSelection, test);
      var rest := IndexTrain(data, test);
      (b.Fail? <==> |Reach(adj, test)| < |rest|) && (b.Fail? ==> b.error == Diverges)
  {
    var rest := IndexTrain(data, test);
    var reducedScore := NodeScore(data, test, w, kappa, Reduced);
    PropagationFacts(adj, test, |rest|);
    var first := PropagatedScores(adj, test, rest, reducedScore);
    if first.Ok? {
      if runSelection {
        var sill := GlobalVariance(data, Reduced);
        var selection := SelectionBuffer(data, first.value, Reduced);
        KeptFromScores(adj, test, rest, reducedScore, sill);
        DistinctSubsetLength(selection, rest);
      }
      var grownOver := if runSelection then SelectionBuffer(data, first.value, Reduced) else rest;
      PropagationFacts(adj, test, |grownOver|);
    }
  }

  /**
   * The buffers of a fold: the kept training rows and the removing buffer are duplicate-free,
   * disjoint rows outside the test set. Every buffered row scores strictly below the test set's
   * target variance; with `run_selection` every kept or buffered row scores strictly below the
   * whole-dataset variance of `X_1DIM`, and without it the training rows are every other row less
   * the removing buffer.
   */
  lemma RegBuffersRows(data: Dataset, adj: Adjacency, w: Weights, kappa: real, runSelection: bool, test: seq<Idx>)
    requires RegSetting(data, adj) && (forall i :: i in test ==> i in data.rows) && Distinct(test)
    requires RegBuffers(data, adj, w, kappa, runSelection, test).Ok?
    ensures var b := RegBuffers(data, adj, w, kappa, runSelection, test).value;
      var rest := IndexTrain(data, test);
      Distinct(b.train) && Distinct(b.removing)
      && (forall i :: i in b.train ==> i in rest)
      && (forall i :: i in b.removing ==> i in rest && i !in b.train)
      && (!runSelection ==> b.train == Without(rest, b.removing))
    ensures var b := RegBuffers(data, adj, w, kappa, runSelection, test).value;
      forall i :: i in b.removing ==> Lt(NodeScore(data, test, w, kappa, Target)(i), Variance(Values(data, test, Target)))
    ensures var b := RegBuffers(data, adj, w, kappa, runSelection, test).value;
      runSelection ==> forall i :: i in b.train + b.removing ==> Lt(NodeScore(data, test, w, kappa, Reduced)(i), GlobalVariance(data, Reduced))
  {
    var rest := IndexTrain(data, test);
    var reducedScore, targetScore := NodeScore(data, test, w, kappa, Reduced), NodeScore(data, test, w, kappa, Target);
    var first := PropagatedScores(adj, test, rest, reducedScore).value;
    var reducedSill, targetSill := GlobalVariance(data, Reduced), Variance(Values(data, test, Target));
    var grownOver := if runSelection then SelectionBuffer(data, first, Reduced) else rest;
    if runSelection {
      KeptFromScores(adj, test, rest, reducedScore, reducedSill);
    }
    assert Distinct(grownOver) && forall i :: i in grownOver ==> i in rest;
    var second := PropagatedScores(adj, test, grownOver, targetScore).value;
    var removing := RemovingBuffer(data, test, second, first);
    KeptFromScores(adj, test, grownOver, targetScore, targetSill);
    BufferedSplit(data, test, grownOver, removing);
    KeepWithoutOrder(grownOver, removing);
  }

  /**
   * What `run` leaves behind for fold `f`: the fold's folder under the method's folder, the
   * record of its buffers, the fold table of its training rows, and the columns of train and test
   * once `X_1DIM` and the fold column are dropped; or the propagation that never ends.
   */
  function RegFoldOutput(data: Dataset, adj: Adjacency, w: Weights, kappa: real, runSelection: bool,
    dataColumns: seq<string>, foldCol: string, rootPath: seq<Segment>, scvMethod: string, f: FoldLabel): Outcome<FoldOutput>
    requires RegSetting(data, adj)
  {
    var test := Group(data, data.index, f);
    match RegBuffers(data, adj, w, kappa, runSelection, test)
    case Fail(e) => Fail(e)
    case Ok(b) =>
      RegBuffersRows(data, adj, w, kappa, runSelection, test);
      var columns := WithoutColumns(dataColumns, [X1DimCol, foldCol]);
      Ok(FoldOutput(f, MethodDir(rootPath, scvMethod) + [FoldDir(f)],
        SplitRecord(b.train, test, b.removing, Discarded(data, b.train, test, b.removing)),
        FoldTable(data, b.train), columns, columns))
  }

  /** `o` is what `run` leaves behind for the fold label it carries. */
  ghost predicate RegFold(data: Dataset, adj: Adjacency, w: Weights, kappa: real, runSelection: bool,
    dataColumns: seq<string>, foldCol: string, rootPath: seq<Segment>, scvMethod: string, o: FoldOutput)
  {
    RegSetting(data, adj) && RegFoldOutput(data, adj, w, kappa, runSelection, dataColumns, foldCol, rootPath, scvMethod, o.fold) == Ok(o)
  }

  /**
   * A fold of a regularised run fails exactly when fewer nodes are reachable from its test set
   * than there are other rows. Otherwise its record is a split of the data around the fold, its
   * fold table follows the training rows, and without `run_selection` nothing is discarded.
   */
  lemma RegFoldFacts(data: Dataset, adj: Adjacency, w: Weights, kappa: real, runSelection: bool,
    dataColumns: seq<string>, foldCol: string, rootPath: seq<Segment>, scvMethod: string, f: FoldLabel)
    requires RegSetting(data, adj)
    ensures var o := RegFoldOutput(data, adj, w, kappa, runSelection, dataColumns, foldCol, rootPath, scvMethod, f);
      var test := Group(data, data.index, f);
      (o.Fail? <==> |Reach(adj, test)| < |IndexTrain(data, test)|)
      && (o.Ok? ==>
        o.value.fold == f && SplitOf(data, f, o.value.record)
        && |o.value.foldTable| == |o.value.record.train|
        && (!runSelection ==> o.value.record.discarded == []))
  {
    var test := Group(data, data.index, f);
    RegBuffersFacts(data, adj, w, kappa, runSelection, test);
    var b := RegBuffers(data, adj, w, kappa, runSelection, test);
    if b.Ok? {
      RegBuffersRows(data, adj, w, kappa, runSelection, test);
      if !runSelection {
        NothingDiscarded(data, test, b.value.removing);
      }
    }
  }
}
