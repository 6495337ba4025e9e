/**
 * The traditional spatial cross-validation: the radius is the first lag of the experimental
 * semivariogram whose value exceeds the target's variance, and every training row closer than
 * that radius to some test row is buffered out.
 */
module Traditional {
  import opened Seqs
  import opened Floats
  import opened Stats
  import opened Frames
  import opened Scv

  /** The folder name of the traditional folds. */
  const TraditionalName: string := "TraditionalSCV"

  /**
   * `range[0][0]` over `[(h, g) for h, g in zip(lag, gamma) if g > sill]`: the first lag, in the
   * given order, whose semivariogram value is strictly greater than the sill. `zip` stops at the
   * shorter list; when no value exceeds the sill the empty list raises IndexError.
   */
  function FirstLagAbove(lags: seq<real>, gammas: seq<Float>, sill: Float): Outcome<real>
    decreases |lags|
  {
    if lags == [] || gammas == [] then Fail(IndexError)
    else if Gt(gammas[0], sill) then Ok(lags[0])
    else FirstLagAbove(lags[1..], gammas[1..], sill)
  }

  /**
   * The radius is found exactly when some paired value exceeds the sill, and it is then the lag
   * of the first such value.
   */
  lemma {:induction false} FirstLagAboveFacts(lags: seq<real>, gammas: seq<Float>, sill: Float)
    ensures var r := FirstLagAbove(lags, gammas, sill);
      (r.Ok? <==> exists k :: 0 <= k < |lags| && k < |gammas| && Gt(gammas[k], sill))
      && (r.Fail? ==> r.error == IndexError)
      && (r.Ok? ==> exists k :: (0 <= k < |lags| && k < |gammas| && r.value == lags[k] && Gt(gammas[k], sill)
        && forall l :: 0 <= l < k ==> !Gt(gammas[l], sill)))
    decreases |lags|
  {
    if lags != [] && gammas != [] && !Gt(gammas[0], sill) {
      var tl, tg := lags[1..], gammas[1..];
      FirstLagAboveFacts(tl, tg, sill);
      var r := FirstLagAbove(tl, tg, sill);
      if r.Ok? {
        var k :| 0 <= k < |tl| && k < |tg| && r.value == tl[k] && Gt(tg[k], sill) && forall l :: 0 <= l < k ==> !Gt(tg[l], sill);
        assert r.value == lags[k + 1] && Gt(gammas[k + 1], sill);
        forall l | 0 <= l < k + 1 ensures !Gt(gammas[l], sill) {
          if l > 0 {
            assert gammas[l] == tg[l - 1];
          }
        }
      } else {
        forall k | 0 <= k < |lags| && k < |gammas| ensures !Gt(gammas[k], sill) {
          if k > 0 {
            assert gammas[k] == tg[k - 1];
          }
        }
      }
    }
  }

  /** The centroid coordinates of a row. */
  type Point = (real, real)

  function PointOf(r: Row): Point
  {
    (r.x, r.y)
  }

  /** The squared Euclidean distance between two points. */
  function SqDist(p: Point, q: Point): (d: real)
    ensures d >= 0.0
    ensures p == q ==> d == 0.0
  {
    var dx, dy := p.0 - q.0, p.1 - q.1;
    SquareZero(dx, dx * dx);
    SquareZero(dy, dy * dy);
    dx * dx + dy * dy
  }

  /**
   * `np.amin(dist, axis=1)` for one training point, squared: the smallest squared distance to
   * the test points. On an empty test set `np.amin` raises.
   */
  function MinSqDist(p: Point, qs: seq<Point>): (m: real)
    requires qs != []
    decreases |qs|
  {
    if |qs| == 1 then SqDist(p, qs[0])
    else
      var rest := MinSqDist(p, qs[1..]);
      var d := SqDist(p, qs[0]);
      if d <= rest then d else rest
  }

  /** The minimum is no larger than any squared distance to a test point, and it is one of them. */
  lemma {:induction false} MinSqDistIsMin(p: Point, qs: seq<Point>)
    requires qs != []
    ensures forall k :: 0 <= k < |qs| ==> MinSqDist(p, qs) <= SqDist(p, qs[k])
    ensures exists k :: 0 <= k < |qs| && MinSqDist(p, qs) == SqDist(p, qs[k])
    decreases |qs|
  {
    if |qs| > 1 {
      var tail := qs[1..];
      MinSqDistIsMin(p, tail);
      forall k | 0 < k < |qs| ensures MinSqDist(p, qs) <= SqDist(p, qs[k]) {
        assert qs[k] == tail[k - 1];
      }
      var j :| 0 <= j < |tail| && MinSqDist(p, tail) == SqDist(p, tail[j]);
      assert tail[j] == qs[j + 1];
      if SqDist(p, qs[0]) <= MinSqDist(p, tail) {
        assert MinSqDist(p, qs) == SqDist(p, qs[0]);
      } else {
        assert MinSqDist(p, qs) == SqDist(p, qs[j + 1]);
      }
    } else {
      assert MinSqDist(p, qs) == SqDist(p, qs[0]);
    }
  }

  /**
   * `cdist`'s Euclidean distance is below the radius: with a distance `d >= 0`, `d < r` holds
   * exactly when `r > 0` and `d * d < r * r`.
   */
  predicate Closer(sqDist: real, radius: real)
  {
    radius > 0.0 && sqDist < radius * radius
  }

  /** Every row label of `ids` has a row, position by position. */
  lemma RowsByPosition(data: Dataset, ids: seq<Idx>)
    requires forall i :: i in ids ==> i in data.rows
    ensures forall k :: 0 <= k < |ids| ==> ids[k] in data.rows
  {
    forall k | 0 <= k < |ids| ensures ids[k] in data.rows {
      var i := ids[k];
      assert i in ids;
    }
  }

  /** The coordinates of the rows `ids`, in order. */
  function Points(data: Dataset, ids: seq<Idx>): (r: seq<Point>)
    requires forall k :: 0 <= k < |ids| ==> ids[k] in data.rows
    ensures |r| == |ids|
    ensures forall k :: 0 <= k < |ids| ==> r[k] == PointOf(data.rows[ids[k]])
  {
    seq(|ids|, k requires 0 <= k < |ids| => PointOf(data.rows[ids[k]]))
  }

  /**
   * `_calculate_buffer`: the training rows, in train order, whose smallest distance to a test row
   * is strictly below the radius.
   */
  function DistanceBuffer(data: Dataset, train: seq<Idx>, test: seq<Idx>, radius: real): seq<Idx>
    requires forall i :: i in test ==> i in data.rows
    requires test != []
  {
    RowsByPosition(data, test);
    var qs := Points(data, test);
    Filter(train, i => i in data.rows && Closer(MinSqDist(PointOf(data.rows[i]), qs), radius))
  }

  /**
   * A training row is buffered exactly when some test row lies strictly within the radius of it;
   * the buffer keeps the order of the training rows.
   */
  lemma DistanceBufferMembers(data: Dataset, train: seq<Idx>, test: seq<Idx>, radius: real)
    requires forall i :: i in test ==> i in data.rows
    requires forall i :: i in train ==> i in data.rows
    requires test != []
    ensures IsSubseq(DistanceBuffer(data, train, test, radius), train)
    ensures forall i :: i in DistanceBuffer(data, train, test, radius) <==>
      i in train && exists t :: t in test && Closer(SqDist(PointOf(data.rows[i]), PointOf(data.rows[t])), radius)
  {
    RowsByPosition(data, test);
    var qs := Points(data, test);
    var p := i => i in data.rows && Closer(MinSqDist(PointOf(data.rows[i]), qs), radius);
    FilterOrder(train, p);
    forall i | i in train
      ensures p(i) <==> exists t :: t in test && Closer(SqDist(PointOf(data.rows[i]), PointOf(data.rows[t])), radius)
    {
      var pi := PointOf(data.rows[i]);
      MinSqDistIsMin(pi, qs);
      if p(i) {
        var k :| 0 <= k < |qs| && MinSqDist(pi, qs) == SqDist(pi, qs[k]);
        assert test[k] in test;
      }
      if exists t :: t in test && Closer(SqDist(pi, PointOf(data.rows[t])), radius) {
        var t :| t in test && Closer(SqDist(pi, PointOf(data.rows[t])), radius);
        var k :| 0 <= k < |test| && test[k] == t;
        assert qs[k] == PointOf(data.rows[t]);
      }
    }
  }

  /** With a radius that is not positive, nothing is buffered. */
  lemma DistanceBufferNonPositive(data: Dataset, train: seq<Idx>, test: seq<Idx>, radius: real)
    requires forall i :: i in test ==> i in data.rows
    requires test != [] && radius <= 0.0
    ensures DistanceBuffer(data, train, test, radius) == []
  {
    RowsByPosition(data, test);
    var qs := Points(data, test);
    FilterNone(train, i => i in data.rows && Closer(MinSqDist(PointOf(data.rows[i]), qs), radius));
  }

  /** With a positive radius, a training row at the same place as a test row is buffered. */
  lemma DistanceBufferCoincident(data: Dataset, train: seq<Idx>, test: seq<Idx>, radius: real, i: Idx, t: Idx)
    requires forall j :: j in test ==> j in data.rows
    requires forall j :: j in train ==> j in data.rows
    requires test != [] && radius > 0.0
    requires i in train && t in test && PointOf(data.rows[i]) == PointOf(data.rows[t])
    ensures i in DistanceBuffer(data, train, test, radius)
  {
    DistanceBufferMembers(data, train, test, radius);
    assert radius * radius > 0.0;
    assert Closer(SqDist(PointOf(data.rows[i]), PointOf(data.rows[t])), radius);
  }

  /** Being closer than a radius stays true for any larger radius. */
  lemma CloserMonotone(sqDist: real, radius: real, larger: real)
    requires radius <= larger && Closer(sqDist, radius)
    ensures Closer(sqDist, larger)
  {
    assert radius * radius <= radius * larger <= larger * larger;
  }

  /** A larger radius buffers every row a smaller one does. */
  lemma DistanceBufferMonotone(data: Dataset, train: seq<Idx>, test: seq<Idx>, radius: real, larger: real)
    requires forall i :: i in test ==> i in data.rows
    requires test != [] && radius <= larger
    ensures forall i :: i in DistanceBuffer(data, train, test, radius) ==> i in DistanceBuffer(data, train, test, larger)
  {
    RowsByPosition(data, test);
    var qs := Points(data, test);
    forall i | i in DistanceBuffer(data, train, test, radius) ensures i in DistanceBuffer(data, train, test, larger) {
      CloserMonotone(MinSqDist(PointOf(data.rows[i]), qs), radius, larger);
    }
  }

  /**
   * What `run` leaves behind for fold `f` with radius `radius`: the fold's folder, the record of
   * its buffer, the fold table of its training rows, and the columns of train and test once the
   * fold column and the coordinates are dropped.
   */
  function TraditionalFoldOutput(data: Dataset, dataColumns: seq<string>, foldCol: string, rootPath: seq<Segment>,
    radius: real, f: FoldLabel): FoldOutput
    requires WellFormed(data)
    requires f in GroupKeys(data, data.index)
  {
    var test := Group(data, data.index, f);
    var rest := IndexTrain(data, test);
    assert test != [] by {
      var i :| i in data.index && data.rows[i].fold == f;
      assert i in test;
    }
    var removing := DistanceBuffer(data, rest, test, radius);
    var train := Without(rest, removing);
    var columns := WithoutColumns(dataColumns, [foldCol, "x", "y"]);
    FoldOutput(f, MethodDir(rootPath, TraditionalName) + [FoldDir(f)],
      SplitRecord(train, test, removing, Discarded(data, train, test, removing)),
      FoldTable(data, train), columns, columns)
  }

  /** `o` is what `run` leaves behind, with radius `radius`, for the fold label it carries. */
  ghost predicate TraditionalFold(data: Dataset, dataColumns: seq<string>, foldCol: string, rootPath: seq<Segment>,
    radius: real, o: FoldOutput)
  {
    WellFormed(data) && o.fold in GroupKeys(data, data.index)
    && o == TraditionalFoldOutput(data, dataColumns, foldCol, rootPath, radius, o.fold)
  }

  /**
   * A traditional fold is a split of the data around the fold in which nothing is discarded: the
   * training rows are every other row less the buffer, and the buffer is empty when the radius
   * is not positive.
   */
  lemma TraditionalFoldFacts(data: Dataset, dataColumns: seq<string>, foldCol: string, rootPath: seq<Segment>,
    radius: real, f: FoldLabel)
    requires WellFormed(data) && f in GroupKeys(data, data.index)
    ensures var o := TraditionalFoldOutput(data, dataColumns, foldCol, rootPath, radius, f);
      var rest := IndexTrain(data, o.record.test);
      SplitOf(data, f, o.record) && o.record.discarded == []
      && o.record.train == Without(rest, o.record.removingBuffer)
      && (radius <= 0.0 ==> o.record.removingBuffer == [] && o.record.train == rest)
  {
    var test := Group(data, data.index, f);
    var rest := IndexTrain(data, test);
    var i :| i in data.index && data.rows[i].fold == f;
    assert i in test;
    var removing := DistanceBuffer(data, rest, test, radius);
    DistanceBufferMembers(data, rest, test, radius);
    NothingDiscarded(data, test, removing);
    BufferedSplit(data, test, rest, removing);
    if radius <= 0.0 {
      DistanceBufferNonPositive(data, rest, test, radius);
      WithoutExtremes(rest, []);
    }
  }

  class TraditionalSCV {
    const cv: SpatialCV
    /** The lags and semivariogram values `geostats.gamv` computes over the dataset. */
    const lags: seq<real>
    const gammas: seq<Float>
    var sillTarget: Option<Float>

    constructor(cv: SpatialCV, lags: seq<real>, gammas: seq<Float>)
      ensures this.cv == cv && this.lags == lags && this.gammas == gammas && sillTarget == None
    {
      this.cv := cv;
      this.lags := lags;
      this.gammas := gammas;
      sillTarget := None;
    }

    /** `_calculate_sill`: the sill is the variance of the target over the whole dataset. */
    method CalculateSill()
      requires cv.Valid()
      modifies this
      ensures sillTarget == Some(GlobalVariance(cv.data, Target))
    {
      sillTarget := Some(Variance(Values(cv.data, cv.data.index, Target)));
    }

    /** `_calculate_buffer_size`: the first lag whose semivariogram value exceeds the sill. */
    method CalculateBufferSize() returns (r: Outcome<real>)
      requires sillTarget.Some?
      ensures r == FirstLagAbove(lags, gammas, sillTarget.value)
    {
      r := FirstLagAbove(lags, gammas, sillTarget.value);
    }

    /**
     * `run`: the coordinate columns join the dataset, the radius is found once, and then for
     * every fold label, the null fold included, in increasing order, the training rows within the
     * radius of the test set are buffered out. The run fails when no lag exceeds the sill.
     */
    method Run() returns (r: Outcome<seq<FoldOutput>>)
      requires cv.Valid()
      requires cv.foldCol in cv.dataColumns && "x" !in cv.dataColumns && "y" !in cv.dataColumns
      modifies this, cv
      ensures cv.Valid()
      ensures cv.dataColumns == old(cv.dataColumns) + ["x", "y"]
      ensures r.Fail? <==> FirstLagAbove(lags, gammas, GlobalVariance(cv.data, Target)).Fail?
      ensures r.Ok? ==> FoldsOf(r.value) == GroupKeys(cv.data, cv.data.index)
      ensures r.Ok? ==> forall o :: o in r.value ==>
        TraditionalFold(cv.data, cv.dataColumns, cv.foldCol, cv.rootPath, FirstLagAbove(lags, gammas, GlobalVariance(cv.data, Target)).value, o)
      ensures r.Ok? ==> cv.curDir == MethodDir(cv.rootPath, TraditionalName)
    {
      cv.MakeFolders(["folds", TraditionalName]);
      assert Folders(["folds", TraditionalName]) == [Named("folds"), Named(TraditionalName)];
      cv.dataColumns := cv.dataColumns + ["x", "y"];
      CalculateSill();
      var size := CalculateBufferSize();
      if size.Fail? {
        return Fail(size.error);
      }
      var radius := size.value;
      var data, columns, foldCol, rootPath := cv.data, cv.dataColumns, cv.foldCol, cv.rootPath;
      var keys := GroupKeys(data, data.index);
      var out: seq<FoldOutput> := [];
      for j := 0 to |keys|
        invariant cv.Valid()
        invariant cv.dataColumns == columns
        invariant cv.curDir == MethodDir(rootPath, TraditionalName)
        invariant FoldsOf(out) == keys[..j]
        invariant forall o :: o in out ==> TraditionalFold(data, columns, foldCol, rootPath, radius, o)
      {
        assert keys[j] in keys;
        var o := ProcessFold(keys[j], radius);
        FoldsAppend(out, o, keys, j);
        out := out + [o];
      }
      assert keys[..|keys|] == keys;
      r := Ok(out);
    }

    /** The body of `run`'s loop for fold `f` with radius `radius`. */
    method ProcessFold(f: FoldLabel, radius: real) returns (o: FoldOutput)
      requires cv.Valid()
      requires f in GroupKeys(cv.data, cv.data.index)
      requires cv.foldCol in cv.dataColumns && "x" in cv.dataColumns && "y" in cv.dataColumns
      requires cv.curDir == MethodDir(cv.rootPath, TraditionalName)
      modifies cv
      ensures cv.Valid()
      ensures cv.dataColumns == old(cv.dataColumns)
      ensures cv.curDir == MethodDir(cv.rootPath, TraditionalName)
      ensures o == TraditionalFoldOutput(cv.data, cv.dataColumns, cv.foldCol, cv.rootPath, radius, f)
    {
      cv.Mkdir(FoldDir(f));
      var dir := cv.curDir;
      var indexTest := Group(cv.data, cv.data.index, f);
      var i :| i in cv.data.index && cv.data.rows[i].fold == f;
      assert i in indexTest;
      cv.SplitDataTestTrain(indexTest);
      var removing := DistanceBuffer(cv.data, cv.train.index, cv.test.index, radius);
      DistanceBufferMembers(cv.data, cv.train.index, cv.test.index, radius);
      o := FinishFold(f, dir, removing);
    }

    /**
     * The end of `run`'s loop: the buffer leaves train, the record and the fold table are saved,
     * the fold column and the coordinates are dropped from both frames, and the current directory
     * returns to the method folder.
     */
    method FinishFold(f: FoldLabel, dir: seq<Segment>, removing: seq<Idx>) returns (o: FoldOutput)
      requires cv.Valid()
      requires forall i :: i in removing ==> i in cv.train.index
      requires forall c :: c in [cv.foldCol, "x", "y"] ==> c in cv.train.columns && c in cv.test.columns
      modifies cv
      ensures cv.Valid()
      ensures var train := Without(old(cv.train.index), removing);
        o == FoldOutput(f, dir,
          SplitRecord(train, old(cv.test.index), removing, Discarded(cv.data, train, old(cv.test.index), removing)),
          FoldTable(cv.data, train), WithoutColumns(old(cv.train.columns), [cv.foldCol, "x", "y"]),
          WithoutColumns(old(cv.test.columns), [cv.foldCol, "x", "y"]))
      ensures cv.dataColumns == old(cv.dataColumns) && cv.curDir == MethodDir(cv.rootPath, TraditionalName)
    {
      var dropped := cv.DropTrain(removing);
      var rec := cv.SaveBufferedIndexes(removing);
      var table := cv.SaveFoldByIndexTraining();
      var cleaned := cv.CleanData([cv.foldCol, "x", "y"]);
      cv.curDir := MethodDir(cv.rootPath, TraditionalName);
      o := FoldOutput(f, dir, rec, table.value, cv.train.columns, cv.test.columns);
    }
  }
}
