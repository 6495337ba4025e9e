/**
 * The ultra-conservative spatial cross-validation: one buffer radius, in graph hops, is searched
 * once for the whole dataset (the first lag whose pooled ring semivariogram reaches the target
 * variance), and every fold's test set is then expanded by that many hops.
 */
module Ultra {
  import opened Seqs
  import opened Floats
  import opened Stats
  import opened Frames
  import opened Graph
  import opened Scv

  /** The folder name of the ultra-conservative folds. */
  const UltraName: string := "UltraConservative"

  /** The radius used without the semivariogram search (`fast`). */
  const FastBufferSize: nat := 27

  /** Every row of the dataset is a row label of the adjacency matrix. */
  ghost predicate UltraSetting(data: Dataset, g: Adjacency)
  {
    WellFormed(data) && Valid(g) && forall i :: i in data.rows ==> i in g.positive
  }

  /**
   * `_get_lag_neighbors`: `lag` rounds of one-hop growth, each appending the fresh neighbours to
   * the caller's list (returned here as `extended`); the result is the ring of the last round.
   * With no round at all the ring variable is never bound (UnboundLocalError).
   */
  method GetLagNeighbors(g: Adjacency, indexes: seq<Idx>, lag: nat) returns (extended: seq<Idx>, ring: Outcome<seq<Idx>>)
    requires Valid(g) && forall i :: i in indexes ==> i in g.positive
    ensures extended == Grow(g, indexes, lag)
    ensures lag == 0 <==> ring == Fail(UnboundLocalError)
    ensures lag >= 1 ==> ring == Ok(Ring(g, indexes, lag))
  {
    extended := indexes;
    var last: Option<seq<Idx>> := None;
    for k := 0 to lag
      invariant extended == Grow(g, indexes, k)
      invariant k == 0 <==> last.None?
      invariant k >= 1 ==> last == Some(Ring(g, indexes, k))
    {
      var neighbors := Neighbors(g, extended);
      extended := extended + neighbors;
      last := Some(neighbors);
    }
    ring := if last.Some? then Ok(last.value) else Fail(UnboundLocalError);
  }

  /** The ring at `lag` hops is disjoint from the seed and from every earlier ring. */
  lemma RingFresh(g: Adjacency, s: seq<Idx>, lag: nat)
    requires Valid(g) && forall i :: i in s ==> i in g.positive
    requires lag >= 1
    ensures Distinct(Ring(g, s, lag))
    ensures forall x :: x in Ring(g, s, lag) ==> x !in Grow(g, s, lag - 1) && x !in s
    ensures forall x, m :: 1 <= m < lag && x in Ring(g, s, lag) ==> x !in Ring(g, s, m)
  {
    var before := Grow(g, s, lag - 1);
    NeighborsDistinct(g, before);
    PrefixMembers(s, before);
    forall x, m | 1 <= m < lag && x in Ring(g, s, lag) ensures x !in Ring(g, s, m) {
      GrowPrefix(g, s, m, lag - 1);
      var grown := Grow(g, s, m);
      assert grown == Grow(g, s, m - 1) + Ring(g, s, m);
      PrefixMembers(grown, before);
    }
  }

  /** The squared differences `(t - x) ** 2` between `t` and each value of `xs`. */
  function SquaredDiffs(t: real, xs: seq<real>): (r: seq<real>)
    ensures |r| == |xs|
    ensures forall k :: 0 <= k < |xs| ==> r[k] >= 0.0
  {
    var r := seq(|xs|, k requires 0 <= k < |xs| => (t - xs[k]) * (t - xs[k]));
    forall k | 0 <= k < |xs| ensures r[k] >= 0.0 {
      SquareZero(t - xs[k], r[k]);
    }
    r
  }

  /** The rows of the dataset in the ring of row `i` at `lag` hops, in column order. */
  function RingRows(data: Dataset, g: Adjacency, i: Idx, lag: nat): seq<Idx>
    requires UltraSetting(data, g) && i in data.rows && lag >= 1
  {
    Keep(Ring(g, [i], lag), data.index)
  }

  /** The target differences of row `i` with the dataset rows of its ring at `lag` hops. */
  function RingDiffs(data: Dataset, g: Adjacency, i: Idx, lag: nat): seq<real>
    requires UltraSetting(data, g) && i in data.rows && lag >= 1
  {
    SquaredDiffs(data.rows[i].target, Values(data, RingRows(data, g, i, lag), Target))
  }

  /** The running totals of `_calculate_buffer_size`: the sum of squared differences and the number of pairs. */
  datatype Totals = Totals(sum: real, pairs: nat)

  /** The ring differences of every dataset row at `lag` hops, as a function of the row. */
  function RowDiffs(data: Dataset, g: Adjacency, lag: nat): Idx -> seq<real>
    requires UltraSetting(data, g) && lag >= 1
  {
    i => if i in data.rows then RingDiffs(data, g, i, lag) else []
  }

  /** The totals accumulated over the rows `ids`, in their order. */
  function Accumulate(diffs: Idx -> seq<real>, ids: seq<Idx>): Totals
    decreases |ids|
  {
    if ids == [] then Totals(0.0, 0)
    else
      var t := Accumulate(diffs, ids[..|ids| - 1]);
      var d := diffs(ids[|ids| - 1]);
      Totals(t.sum + Sum(d), t.pairs + |d|)
  }

  /** There is no pair at all exactly when no row of `ids` has a difference. */
  lemma {:induction false} AccumulatePairs(diffs: Idx -> seq<real>, ids: seq<Idx>)
    ensures Accumulate(diffs, ids).pairs == 0 <==> forall i :: i in ids ==> diffs(i) == []
    decreases |ids|
  {
    if ids != [] {
      var init := ids[..|ids| - 1];
      var last := ids[|ids| - 1];
      assert forall i :: i in ids <==> i in init || i == last by {
        assert ids == init + [last];
      }
      AccumulatePairs(diffs, init);
    }
  }

  /** Accumulating one more row onto the totals of a prefix of the rows. */
  lemma AccumulateStep(diffs: Idx -> seq<real>, ids: seq<Idx>, k: nat)
    requires k < |ids|
    ensures var t := Accumulate(diffs, ids[..k]);
      var d := diffs(ids[k]);
      Accumulate(diffs, ids[..k + 1]) == Totals(t.sum + Sum(d), t.pairs + |d|)
  {
    assert ids[..k + 1][..k] == ids[..k];
  }

  /** Beyond as many hops as the graph has nodes there is no pair left to compare. */
  lemma PairsVanish(data: Dataset, g: Adjacency, lag: nat)
    requires UltraSetting(data, g) && lag > |g.labels|
    ensures Accumulate(RowDiffs(data, g, lag), data.index).pairs == 0
  {
    var diffs := RowDiffs(data, g, lag);
    forall i | i in data.index ensures diffs(i) == [] {
      RingsVanish(g, [i], lag);
    }
    AccumulatePairs(diffs, data.index);
  }

  /** The pooled semivariogram `sum / (2 * pairs)` of a lag with at least one pair. */
  function PooledGamma(t: Totals): Float
    requires t.pairs > 0
  {
    Fin(t.sum / (2 * t.pairs) as real)
  }

  /** The totals of every lag of at least 1 over the whole dataset. */
  function TotalsOf(data: Dataset, g: Adjacency): nat -> Totals
    requires UltraSetting(data, g)
  {
    lag => if lag >= 1 then Accumulate(RowDiffs(data, g, lag), data.index) else Totals(0.0, 0)
  }

  /**
   * `totals` holds the totals of every lag of at least 1 over the whole dataset; the trigger keeps
   * the definition of a lag's totals out of sight until a proof names that lag's differences.
   */
  ghost predicate TotalsAre(data: Dataset, g: Adjacency, totals: nat -> Totals)
  {
    UltraSetting(data, g)
    && forall lag: nat {:trigger RowDiffs(data, g, lag)} ::
      lag >= 1 ==> totals(lag) == Accumulate(RowDiffs(data, g, lag), data.index)
  }

  /** The totals of the dataset are the totals of the dataset, and vanish past the graph's size. */
  lemma TotalsOfAre(data: Dataset, g: Adjacency)
    requires UltraSetting(data, g)
    ensures TotalsAre(data, g, TotalsOf(data, g))
    ensures Vanishing(TotalsOf(data, g), |g.labels|)
  {
    TotalsVanish(data, g);
  }

  /** Past `bound` hops no lag has a pair. */
  ghost predicate Vanishing(totals: nat -> Totals, bound: nat)
  {
    forall lag: nat :: lag > bound ==> totals(lag).pairs == 0
  }

  /** The totals of the dataset vanish past as many hops as the graph has nodes. */
  lemma TotalsVanish(data: Dataset, g: Adjacency)
    requires UltraSetting(data, g)
    ensures Vanishing(TotalsOf(data, g), |g.labels|)
  {
    forall lag: nat | lag > |g.labels| ensures TotalsOf(data, g)(lag).pairs == 0 {
      PairsVanish(data, g, lag);
    }
  }

  /**
   * The search of `_calculate_buffer_size` from `lag` on, where every earlier lag was below the
   * sill: it fails on a lag with no pair, stops on a lag whose gamma is not below the sill, and
   * otherwise tries the next lag.
   */
  function SearchFrom(totals: nat -> Totals, bound: nat, sill: Float, lag: nat): Outcome<nat>
    requires Vanishing(totals, bound) && lag >= 1
    decreases bound + 1 - lag
  {
    var t := totals(lag);
    if t.pairs == 0 then Fail(ZeroDivisionError)
    else if !Lt(PooledGamma(t), sill) then Ok(lag)
    else SearchFrom(totals, bound, sill, lag + 1)
  }

  /**
   * The radius `_calculate_buffer_size` returns for the sill `sill`: lag 0 when the loop test
   * `-inf < sill` already fails (a NaN sill), otherwise the search from lag 1.
   */
  function BufferSize(data: Dataset, g: Adjacency, sill: Float): Outcome<nat>
    requires UltraSetting(data, g)
  {
    TotalsVanish(data, g);
    if !Lt(NegInf, sill) then Ok(0) else SearchFrom(TotalsOf(data, g), |g.labels|, sill, 1)
  }

  /** Every lag from 1 to `l` has pairs, and its pooled semivariogram is below the sill. */
  ghost predicate BelowSillUpTo(totals: nat -> Totals, sill: Float, l: nat)
  {
    forall m: nat :: 1 <= m <= l ==> totals(m).pairs > 0 && Lt(PooledGamma(totals(m)), sill)
  }

  /**
   * The search from `lag` ends at the first lag from there whose semivariogram is not below the
   * sill, or fails at the first lag with no pair, and every lag it passes is below the sill.
   */
  lemma {:induction false} SearchFromFacts(totals: nat -> Totals, bound: nat, sill: Float, lag: nat)
    requires Vanishing(totals, bound) && lag >= 1
    requires BelowSillUpTo(totals, sill, lag - 1)
    ensures var r := SearchFrom(totals, bound, sill, lag);
      (r.Ok? ==>
        r.value >= lag && BelowSillUpTo(totals, sill, r.value - 1)
        && totals(r.value).pairs > 0 && !Lt(PooledGamma(totals(r.value)), sill))
      && (r.Fail? ==>
        r.error == ZeroDivisionError
        && exists l: nat :: l >= lag && BelowSillUpTo(totals, sill, l - 1) && totals(l).pairs == 0)
    decreases bound + 1 - lag
  {
    var t := totals(lag);
    if t.pairs == 0 {
      assert SearchFrom(totals, bound, sill, lag) == Fail(ZeroDivisionError);
      assert lag >= lag && BelowSillUpTo(totals, sill, lag - 1) && totals(lag).pairs == 0;
    } else if Lt(PooledGamma(t), sill) {
      forall m: nat | 1 <= m <= lag ensures totals(m).pairs > 0 && Lt(PooledGamma(totals(m)), sill) {
        if m < lag {
          assert BelowSillUpTo(totals, sill, lag - 1);
        }
      }
      assert BelowSillUpTo(totals, sill, lag);
      assert SearchFrom(totals, bound, sill, lag) == SearchFrom(totals, bound, sill, lag + 1);
      SearchFromFacts(totals, bound, sill, lag + 1);
    } else {
      assert SearchFrom(totals, bound, sill, lag) == Ok(lag);
    }
  }

  /**
   * `_calculate_buffer_size` returns the smallest lag of at least 1 whose pooled semivariogram is
   * not below the sill, every smaller lag having been below it; it fails with ZeroDivisionError at
   * a lag with no pair; and with a NaN sill it returns 0 without computing anything.
   */
  lemma BufferSizeFacts(data: Dataset, g: Adjacency, sill: Float)
    requires UltraSetting(data, g)
    ensures sill.NaN? ==> BufferSize(data, g, sill) == Ok(0)
    ensures var r := BufferSize(data, g, sill);
      var totals := TotalsOf(data, g);
      (r.Ok? && !sill.NaN? && !sill.NegInf? ==>
        r.value >= 1 && BelowSillUpTo(totals, sill, r.value - 1)
        && totals(r.value).pairs > 0 && !Lt(PooledGamma(totals(r.value)), sill))
      && (r.Fail? ==>
        r.error == ZeroDivisionError
        && exists l: nat :: l >= 1 && BelowSillUpTo(totals, sill, l - 1) && totals(l).pairs == 0)
  {
    TotalsVanish(data, g);
    if Lt(NegInf, sill) {
      SearchFromFacts(TotalsOf(data, g), |g.labels|, sill, 1);
    }
  }

  /** One lag of `_calculate_buffer_size`: the totals over every row of the dataset. */
  method PooledTotals(data: Dataset, g: Adjacency, lag: nat, ghost totals: nat -> Totals) returns (t: Totals)
    requires TotalsAre(data, g, totals) && lag >= 1
    ensures t == totals(lag)
  {
    RowDiffsAre(data, g, lag);
    t := SumRows(data, g, lag, RowDiffs(data, g, lag));
  }

  /**
   * `diffs` gives every dataset row its ring differences at `lag` hops; the trigger keeps the
   * definition of a row's differences out of sight until a proof names them.
   */
  ghost predicate DiffsAre(data: Dataset, g: Adjacency, lag: nat, diffs: Idx -> seq<real>)
  {
    UltraSetting(data, g) && lag >= 1
    && forall i {:trigger RingDiffs(data, g, i, lag)} :: i in data.rows ==> diffs(i) == RingDiffs(data, g, i, lag)
  }

  lemma RowDiffsAre(data: Dataset, g: Adjacency, lag: nat)
    requires UltraSetting(data, g) && lag >= 1
    ensures DiffsAre(data, g, lag, RowDiffs(data, g, lag))
  {
  }

  /** The loop of `_calculate_buffer_size` over the rows for one lag, accumulating in row order. */
  method SumRows(data: Dataset, g: Adjacency, lag: nat, ghost diffs: Idx -> seq<real>) returns (t: Totals)
    requires DiffsAre(data, g, lag, diffs)
    ensures t == Accumulate(diffs, data.index)
  {
    t := Totals(0.0, 0);
    for k := 0 to |data.index|
      invariant t == Accumulate(diffs, data.index[..k])
    {
      var i := data.index[k];
      AccumulateStep(diffs, data.index, k);
      var d := RowTotal(data, g, i, lag, diffs);
      t := Totals(t.sum + Sum(d), t.pairs + |d|);
    }
    assert data.index[..|data.index|] == data.index;
  }

  /** The body of `_calculate_buffer_size`'s loop over the rows, for the row `i`. */
  method RowTotal(data: Dataset, g: Adjacency, i: Idx, lag: nat, ghost diffs: Idx -> seq<real>) returns (d: seq<real>)
    requires DiffsAre(data, g, lag, diffs) && i in data.index
    ensures d == diffs(i)
  {
    var _, ring := GetLagNeighbors(g, [i], lag);
    var neighbors := Keep(ring.value, data.index);
    d := SquaredDiffs(data.rows[i].target, Values(data, neighbors, Target));
    assert d == RingDiffs(data, g, i, lag);
  }

  /** `_calculate_buffer_size` for the sill `sill`. */
  method CalculateBufferSize(data: Dataset, g: Adjacency, sill: Float) returns (r: Outcome<nat>)
    requires UltraSetting(data, g)
    ensures r == BufferSize(data, g, sill)
  {
    TotalsOfAre(data, g);
    r := SearchLags(data, g, sill, TotalsOf(data, g), |g.labels|);
  }

  /**
   * The loop of `_calculate_buffer_size`: from lag 0, whose semivariogram counts as `-inf`, try
   * the next lag while the last one is below the sill.
   */
  method SearchLags(data: Dataset, g: Adjacency, sill: Float, ghost totals: nat -> Totals, ghost bound: nat)
    returns (r: Outcome<nat>)
    requires TotalsAre(data, g, totals) && Vanishing(totals, bound)
    ensures r == if Lt(NegInf, sill) then SearchFrom(totals, bound, sill, 1) else Ok(0)
  {
    var lag: nat := 0;
    var gamma := NegInf;
    while Lt(gamma, sill)
      invariant lag == 0 ==> gamma == NegInf
      invariant lag >= 1 ==>
        totals(lag).pairs > 0 && gamma == PooledGamma(totals(lag)) && Lt(NegInf, sill)
        && SearchFrom(totals, bound, sill, lag) == SearchFrom(totals, bound, sill, 1)
        && lag <= bound
      decreases bound + 1 - lag
    {
      lag := lag + 1;
      var t := PooledTotals(data, g, lag, totals);
      if t.pairs == 0 {
        return Fail(ZeroDivisionError);
      }
      gamma := PooledGamma(t);
    }
    return Ok(lag);
  }

  /**
   * `_calculate_buffer`'s result for a radius of `k >= 1` hops: the test set grown by `k` rings,
   * followed once more by the last ring, less the indexes that are not dataset rows or are test
   * rows.
   */
  function UltraBuffer(data: Dataset, g: Adjacency, test: seq<Idx>, k: nat): seq<Idx>
    requires UltraSetting(data, g) && (forall i :: i in test ==> i in g.positive) && k >= 1
  {
    Filter(Grow(g, test, k) + Ring(g, test, k), Outside(data, test))
  }

  /** The condition of `_calculate_buffer`'s comprehension: a dataset row that is not a test row. */
  function Outside(data: Dataset, test: seq<Idx>): Idx -> bool
  {
    i => i in data.index && i !in test
  }

  /** The buffer is exactly the dataset rows outside the test set within `k` hops of it. */
  lemma UltraBufferMembers(data: Dataset, g: Adjacency, test: seq<Idx>, k: nat)
    requires UltraSetting(data, g) && (forall i :: i in test ==> i in g.positive) && k >= 1
    ensures forall x :: x in UltraBuffer(data, g, test, k) <==> x in data.rows && x !in test && x in Grow(g, test, k)
  {
    GrowRing(g, test, k);
  }

  /** A larger radius buffers every index a smaller one does. */
  lemma UltraBufferMonotone(data: Dataset, g: Adjacency, test: seq<Idx>, k: nat, m: nat)
    requires UltraSetting(data, g) && (forall i :: i in test ==> i in g.positive) && 1 <= k <= m
    ensures forall x :: x in UltraBuffer(data, g, test, k) ==> x in UltraBuffer(data, g, test, m)
  {
    UltraBufferMembers(data, g, test, k);
    UltraBufferMembers(data, g, test, m);
    GrowMonotone(g, test, k, m, UltraBuffer(data, g, test, k));
  }

  /** A dataset row of the last ring appears twice in the buffer: once from the grown list and once more after it. */
  lemma UltraBufferRepeats(data: Dataset, g: Adjacency, test: seq<Idx>, k: nat, x: Idx)
    requires UltraSetting(data, g) && (forall i :: i in test ==> i in g.positive) && k >= 1
    requires x in Ring(g, test, k) && x in data.rows
    ensures exists a, b ::
      0 <= a < b < |UltraBuffer(data, g, test, k)|
      && UltraBuffer(data, g, test, k)[a] == x && UltraBuffer(data, g, test, k)[b] == x
  {
    var grown, ring, p := Grow(g, test, k), Ring(g, test, k), Outside(data, test);
    GrowRing(g, test, k);
    RingFresh(g, test, k);
    assert x in grown;
    assert x in Elems(data.index);
    assert p(x);
    FilterTwice(grown, ring, p, x);
    var buffer := UltraBuffer(data, g, test, k);
    assert buffer == Filter(grown + ring, p);
    var a, b :| 0 <= a < b < |buffer| && buffer[a] == x && buffer[b] == x;
  }

  /**
   * What `run` leaves behind for fold `f` with a radius of `k >= 1` hops: the test set is the
   * fold's rows, the removing buffer `UltraBuffer`, train the rest of the data less the buffer,
   * and both frames lose the fold column.
   */
  function UltraFoldOutput(data: Dataset, g: Adjacency, dataColumns: seq<string>, foldCol: string,
    rootPath: seq<Segment>, k: nat, f: FoldLabel): FoldOutput
    requires UltraSetting(data, g) && k >= 1
  {
    var test := Group(data, data.index, f);
    var removing := UltraBuffer(data, g, test, k);
    var train := Without(IndexTrain(data, test), removing);
    var columns := WithoutColumns(dataColumns, [foldCol]);
    FoldOutput(f, MethodDir(rootPath, UltraName) + [FoldDir(f)],
      SplitRecord(train, test, removing, Discarded(data, train, test, removing)),
      FoldTable(data, train), columns, columns)
  }

  /** `o` is the ultra-conservative fold of the label it carries, with a radius of `k` hops. */
  ghost predicate UltraFold(data: Dataset, g: Adjacency, dataColumns: seq<string>, foldCol: string,
    rootPath: seq<Segment>, k: nat, o: FoldOutput)
  {
    UltraSetting(data, g) && k >= 1 && o == UltraFoldOutput(data, g, dataColumns, foldCol, rootPath, k, o.fold)
  }

  /**
   * An ultra-conservative fold is a record of a fold generator in which nothing is discarded:
   * train is the rest of the data less the removing buffer, and the buffer holds the rows within
   * `k` hops of the test set.
   */
  lemma UltraFoldFacts(data: Dataset, g: Adjacency, dataColumns: seq<string>, foldCol: string,
    rootPath: seq<Segment>, k: nat, f: FoldLabel)
    requires UltraSetting(data, g) && k >= 1
    ensures var rec := UltraFoldOutput(data, g, dataColumns, foldCol, rootPath, k, f).record;
      SplitOf(data, f, rec) && rec.discarded == [] && Distinct(rec.train)
      && rec.train == Without(IndexTrain(data, rec.test), rec.removingBuffer)
      && forall x :: x in rec.removingBuffer <==> x in IndexTrain(data, rec.test) && x in Grow(g, rec.test, k)
  {
    var test := Group(data, data.index, f);
    var removing := UltraBuffer(data, g, test, k);
    UltraBufferMembers(data, g, test, k);
    NothingDiscarded(data, test, removing);
    KeepWithoutOrder(IndexTrain(data, test), removing);
  }

  /** The ultra-conservative fold of `f`, given its test set, spelled out as `run` assembles it. */
  lemma UltraFoldOutputOf(data: Dataset, g: Adjacency, dataColumns: seq<string>, foldCol: string,
    rootPath: seq<Segment>, k: nat, f: FoldLabel, test: seq<Idx>)
    requires UltraSetting(data, g) && k >= 1
    requires test == Group(data, data.index, f)
    ensures var removing := UltraBuffer(data, g, test, k);
      var train := Without(IndexTrain(data, test), removing);
      var columns := WithoutColumns(dataColumns, [foldCol]);
      (forall i :: i in removing ==> i in IndexTrain(data, test))
      && UltraFoldOutput(data, g, dataColumns, foldCol, rootPath, k, f)
      == FoldOutput(f, MethodDir(rootPath, UltraName) + [FoldDir(f)],
        SplitRecord(train, test, removing, Discarded(data, train, test, removing)),
        FoldTable(data, train), columns, columns)
  {
    UltraFoldFacts(data, g, dataColumns, foldCol, rootPath, k, f);
  }

  class UltraConservative {
    const cv: SpatialCV
    const adj: Adjacency
    const fast: bool
    var sillTarget: Option<Float>

    ghost predicate Valid()
      reads cv`train, cv`test
    {
      cv.Valid() && UltraSetting(cv.data, adj)
    }

    constructor(cv: SpatialCV, adj: Adjacency, fast: bool)
      requires cv.Valid() && UltraSetting(cv.data, adj)
      ensures Valid()
      ensures this.cv == cv && this.adj == adj && this.fast == fast && sillTarget == None
    {
      this.cv := cv;
      this.adj := adj;
      this.fast := fast;
      sillTarget := None;
    }

    /** `_calculate_sill`: the sill is the variance of the target over the whole dataset. */
    method CalculateSill()
      requires Valid()
      modifies this
      ensures sillTarget == Some(GlobalVariance(cv.data, Target))
    {
      sillTarget := Some(Variance(Values(cv.data, cv.data.index, Target)));
    }

    /** The radius of a run: 27 hops with `fast`, the searched one otherwise. */
    function RunBufferSize(): Outcome<nat>
      requires Valid()
      reads cv`train, cv`test
    {
      if fast then Ok(FastBufferSize) else BufferSize(cv.data, adj, GlobalVariance(cv.data, Target))
    }

    /**
     * `_calculate_buffer`: the dataset rows outside the test set within `bufferSize` hops of it,
     * the last ring listed twice; with a radius of 0 the ring variable is never bound.
     */
    method CalculateBuffer(bufferSize: nat) returns (r: Outcome<seq<Idx>>)
      requires Valid()
      ensures bufferSize == 0 <==> r == Fail(UnboundLocalError)
      ensures bufferSize >= 1 ==> r == Ok(UltraBuffer(cv.data, adj, cv.test.index, bufferSize))
    {
      var test := cv.test.index;
      var indexes, ring := GetLagNeighbors(adj, test, bufferSize);
      if ring.Fail? {
        return Fail(UnboundLocalError);
      }
      var bufferIndex := indexes + ring.value;
      r := Ok(Filter(bufferIndex, Outside(cv.data, test)));
    }

    /**
     * `run`: the radius is found once (27 hops with `fast`), then for every fold label, the null
     * fold included, in increasing order, the test set is expanded by that many hops and the
     * expansion dropped from train. The run fails when the search fails, or at its first fold
     * when the radius is 0.
     */
    method Run() returns (r: Outcome<seq<FoldOutput>>)
      requires Valid()
      requires cv.foldCol in cv.dataColumns
      modifies this, cv
      ensures Valid()
      ensures r.Fail? <==>
        RunBufferSize().Fail?
        || (RunBufferSize().value == 0 && GroupKeys(cv.data, cv.data.index) != [])
      ensures cv.dataColumns == old(cv.dataColumns)
      ensures r.Ok? ==> cv.curDir == MethodDir(cv.rootPath, UltraName)
      ensures r.Ok? ==> FoldsOf(r.value) == GroupKeys(cv.data, cv.data.index)
      ensures r.Ok? && r.value != [] ==>
        RunBufferSize().Ok? && RunBufferSize().value >= 1
        && forall o :: o in r.value ==> UltraFold(cv.data, adj, cv.dataColumns, cv.foldCol, cv.rootPath, RunBufferSize().value, o)
    {
      cv.MakeFolders(["folds", UltraName]);
      assert Folders(["folds", UltraName]) == [Named("folds"), Named(UltraName)];
      var size: Outcome<nat>;
      if fast {
        size := Ok(FastBufferSize);
      } else {
        CalculateSill();
        size := CalculateBufferSize(cv.data, adj, sillTarget.value);
      }
      if size.Fail? {
        return Fail(size.error);
      }
      r := RunFolds(GroupKeys(cv.data, cv.data.index), size.value);
    }

    /** The loop of `run` over the fold labels `keys` with a radius of `k` hops. */
    method RunFolds(keys: seq<FoldLabel>, k: nat) returns (r: Outcome<seq<FoldOutput>>)
      requires Valid()
      requires cv.foldCol in cv.dataColumns
      requires cv.curDir == MethodDir(cv.rootPath, UltraName)
      modifies cv
      ensures Valid()
      ensures cv.dataColumns == old(cv.dataColumns)
      ensures r.Ok? ==> cv.curDir == MethodDir(cv.rootPath, UltraName)
      ensures r.Fail? <==> k == 0 && keys != []
      ensures r.Ok? ==> FoldsOf(r.value) == keys
      ensures r.Ok? ==> forall o :: o in r.value ==> UltraFold(cv.data, adj, cv.dataColumns, cv.foldCol, cv.rootPath, k, o)
    {
      var data, columns, foldCol, rootPath := cv.data, cv.dataColumns, cv.foldCol, cv.rootPath;
      var out: seq<FoldOutput> := [];
      for j := 0 to |keys|
        invariant Valid()
        invariant cv.dataColumns == columns
        invariant cv.curDir == MethodDir(rootPath, UltraName)
        invariant j > 0 ==> k >= 1
        invariant FoldsOf(out) == keys[..j]
        invariant forall o :: o in out ==> UltraFold(data, adj, columns, foldCol, rootPath, k, o)
      {
        var o := ProcessFold(keys[j], k);
        if o.Fail? {
          return Fail(o.error);
        }
        FoldsAppend(out, o.value, keys, j);
        out := out + [o.value];
      }
      assert keys[..|keys|] == keys;
      r := Ok(out);
    }

    /** The body of `run`'s loop for fold `f` with a radius of `k` hops. */
    method ProcessFold(f: FoldLabel, k: nat) returns (r: Outcome<FoldOutput>)
      requires Valid()
      requires cv.foldCol in cv.dataColumns
      requires cv.curDir == MethodDir(cv.rootPath, UltraName)
      modifies cv
      ensures Valid()
      ensures cv.dataColumns == old(cv.dataColumns)
      ensures r.Ok? ==> cv.curDir == MethodDir(cv.rootPath, UltraName)
      ensures k == 0 <==> r == Fail(UnboundLocalError)
      ensures k >= 1 ==>
        r.Ok? && r.value.fold == f
        && UltraFold(cv.data, adj, cv.dataColumns, cv.foldCol, cv.rootPath, k, r.value)
    {
      cv.Mkdir(FoldDir(f));
      var dir := cv.curDir;
      var indexTest := Group(cv.data, cv.data.index, f);
      cv.SplitDataTestTrain(indexTest);
      var buffer := CalculateBuffer(k);
      if buffer.Fail? {
        return Fail(buffer.error);
      }
      UltraFoldOutputOf(cv.data, adj, cv.dataColumns, cv.foldCol, cv.rootPath, k, f, indexTest);
      var o := FinishFold(f, dir, buffer.value);
      r := Ok(o);
    }

    /**
     * The end of `run`'s loop: the buffer leaves train, the record and the fold table are saved,
     * the fold column is dropped from both frames, and the current directory returns to the
     * method folder.
     */
    method FinishFold(f: FoldLabel, dir: seq<Segment>, removing: seq<Idx>) returns (o: FoldOutput)
      requires Valid()
      requires forall i :: i in removing ==> i in cv.train.index
      requires cv.foldCol in cv.train.columns && cv.foldCol in cv.test.columns
      modifies cv
      ensures Valid()
      ensures var train := Without(old(cv.train.index), removing);
        o == FoldOutput(f, dir,
          SplitRecord(train, old(cv.test.index), removing, Discarded(cv.data, train, old(cv.test.index), removing)),
          FoldTable(cv.data, train), WithoutColumns(old(cv.train.columns), [cv.foldCol]),
          WithoutColumns(old(cv.test.columns), [cv.foldCol]))
      ensures cv.dataColumns == old(cv.dataColumns) && cv.curDir == MethodDir(cv.rootPath, UltraName)
    {
      var dropped := cv.DropTrain(removing);
      var rec := cv.SaveBufferedIndexes(removing);
      var table := cv.SaveFoldByIndexTraining();
      var cleaned := cv.CleanData([cv.foldCol]);
      cv.curDir := MethodDir(cv.rootPath, UltraName);
      o := FoldOutput(f, dir, rec, table.value, cv.train.columns, cv.test.columns);
    }
  }
}
