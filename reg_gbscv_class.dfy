/** The `RegGraphBasedSCV` fold generator: its weight matrix, its sill dictionaries and its `run` loop. */
module RegGraphBased {
  import opened Seqs
  import opened Floats
  import opened Stats
  import opened Frames
  import opened Graph
  import opened Scv
  import opened Gbscv
  import opened RegGbscv

  class RegGraphBasedSCV {
    const cv: SpatialCV
    const adj: Adjacency
    const kappa: real
    const runSelection: bool
    /** `type_graph == "Sparse"`. */
    const sparse: bool
    /** The name of the method's folder, `scv_method`. */
    const scvMethod: string
    var wMatrix: Weights
    var sillTarget: map<FoldLabel, Float>
    var sillReduced: map<FoldLabel, Float>
    var sillMaxReduced: map<FoldLabel, Float>
    /** The insertion order of the keys of `sillReduced`, as a Python dict keeps it. */
    var reducedOrder: seq<FoldLabel>

    /** The adjacency matrix has a row for every dataset row. */
    ghost predicate Valid()
      reads this`sillReduced, this`reducedOrder, cv`train, cv`test
    {
      cv.Valid() && RegSetting(cv.data, adj)
      && Distinct(reducedOrder) && Elems(reducedOrder) == sillReduced.Keys
    }

    /** Outside "Sparse" mode the weight matrix is the one given. */
    constructor(cv: SpatialCV, adj: Adjacency, kappa: real, runSelection: bool, sparse: bool, scvMethod: string, wMatrix: Weights)
      requires cv.Valid() && RegSetting(cv.data, adj)
      ensures Valid()
      ensures this.cv == cv && this.adj == adj && this.kappa == kappa && this.runSelection == runSelection
      ensures this.sparse == sparse && this.scvMethod == scvMethod && this.wMatrix == wMatrix
      ensures sillTarget == map[] && sillReduced == map[] && sillMaxReduced == map[] && reducedOrder == []
    {
      this.cv := cv;
      this.adj := adj;
      this.kappa := kappa;
      this.runSelection := runSelection;
      this.sparse := sparse;
      this.scvMethod := scvMethod;
      this.wMatrix := wMatrix;
      sillTarget := map[];
      sillReduced := map[];
      sillMaxReduced := map[];
      reducedOrder := [];
    }

    /**
     * `_init_fields`: in "Sparse" mode the weight matrix becomes all ones; the three sill
     * dictionaries are emptied.
     */
    method InitFields()
      requires Valid()
      modifies this
      ensures Valid()
      ensures wMatrix == if sparse then SparseWeights() else old(wMatrix)
      ensures sillTarget == map[] && sillReduced == map[] && sillMaxReduced == map[] && reducedOrder == []
    {
      if sparse {
        wMatrix := SparseWeights();
      }
      sillTarget := map[];
      sillReduced := map[];
      sillMaxReduced := map[];
      reducedOrder := [];
    }

    /** `_calculate_removing_buffer_sill`: sets the target sill of fold `f`. */
    method CalculateRemovingBufferSill(f: FoldLabel, foldData: seq<Idx>, globalVar: Float)
      requires Valid()
      requires forall i :: i in foldData ==> i in cv.data.rows
      modifies this
      ensures Valid()
      ensures sillTarget == old(sillTarget)[f := PooledSill(cv.data, foldData, cv.test.index, Target, globalVar)]
      ensures sillReduced == old(sillReduced) && sillMaxReduced == old(sillMaxReduced) && reducedOrder == old(reducedOrder)
    {
      sillTarget := sillTarget[f := PooledSill(cv.data, foldData, cv.test.index, Target, globalVar)];
    }

    /**
     * `_calculate_selection_buffer_sill`: sets the reduced sill of fold `f` to the variance of the
     * fold's `X_1DIM` values followed by the test set's, then sets every key of `sill_reduced` in
     * `sill_max_reduced` to the first `>`-maximal reduced sill.
     */
    method CalculateSelectionBufferSill(f: FoldLabel, foldData: seq<Idx>)
      requires Valid()
      requires forall i :: i in foldData ==> i in cv.data.rows
      modifies this
      ensures Valid()
      ensures var v := RawSill(cv.data, cv.test.index)(Values(cv.data, foldData, Reduced));
        sillReduced == old(sillReduced)[f := v]
        && reducedOrder == SelectionOrder(old(reducedOrder), old(sillReduced), f)
        && sillMaxReduced == old(sillMaxReduced) + Levelled(old(reducedOrder), old(sillReduced), f, v)
      ensures sillTarget == old(sillTarget)
    {
      var v := RawSill(cv.data, cv.test.index)(Values(cv.data, foldData, Reduced));
      reducedOrder, sillReduced, sillMaxReduced := RegSelectionUpdate(reducedOrder, sillReduced, sillMaxReduced, f, v);
    }

    /**
     * `_initiate_buffers_sills`: `sill_target` and `sill_reduced` are emptied and refilled, fold by
     * fold of the training set in increasing label order; `sill_max_reduced` keeps its older
     * entries, and every training fold's entry holds the running `>`-maximum of the reduced sills.
     */
    method InitiateBuffersSills()
      requires Valid()
      modifies this
      ensures Valid()
      ensures var keys := GroupKeys(cv.data, cv.train.index);
        var raw := RawSillOf(cv.data, cv.train.index, cv.test.index);
        reducedOrder == keys
        && sillTarget == SillMap(keys, SillOf(cv.data, cv.train.index, cv.test.index, Target))
        && sillReduced == SillMap(keys, raw)
        && sillMaxReduced == old(sillMaxReduced) + LevelledMap(keys, raw)
      ensures wMatrix == old(wMatrix)
    {
      var keys := GroupKeys(cv.data, cv.train.index);
      IncreasingIsDistinct(keys);
      var target := SillOf(cv.data, cv.train.index, cv.test.index, Target);
      var raw := RawSillOf(cv.data, cv.train.index, cv.test.index);
      var order, targetMap, reducedMap, maxMap := FillRegSills(keys, target, raw, sillMaxReduced);
      sillTarget, sillReduced, sillMaxReduced, reducedOrder := targetMap, reducedMap, maxMap, order;
    }

    /** `_propagate_variance` for attribute `a` over the current split. */
    method PropagateVariance(a: Attribute) returns (r: Outcome<seq<(Idx, Float)>>)
      requires Valid()
      ensures r == PropagatedScores(adj, cv.test.index, cv.train.index, NodeScore(cv.data, cv.test.index, wMatrix, kappa, a))
    {
      NodeScoreAre(cv.data, cv.test.index, wMatrix, kappa, a);
      r := RegGbscv.PropagateVariance(cv.data, adj, cv.test.index, cv.train.index, wMatrix, kappa, a,
        NodeScore(cv.data, cv.test.index, wMatrix, kappa, a));
    }

    /**
     * `run`: the weight matrix and the sills are reset, and for every fold label but the null
     * fold, in increasing order, the fold's buffers are computed and written to its own folder
     * under the method's folder. The `X_1DIM` column is added to the dataset first; its values are
     * the rows' `reduced` field. The run fails, at its first such fold, exactly when some fold's
     * propagation never ends.
     */
    method Run() returns (r: Outcome<seq<FoldOutput>>)
      requires Valid()
      requires cv.foldCol in cv.dataColumns
      modifies this, cv
      ensures Valid()
      ensures wMatrix == if sparse then SparseWeights() else old(wMatrix)
      ensures cv.dataColumns == WithColumn(old(cv.dataColumns), X1DimCol)
      ensures var keys := GroupKeys(cv.data, cv.data.index);
        r.Ok? <==> forall f :: f in keys && f != NullFold ==>
          RegFoldOutput(cv.data, adj, wMatrix, kappa, runSelection, cv.dataColumns, cv.foldCol, cv.rootPath, scvMethod, f).Ok?
      ensures r.Ok? ==> FoldsOf(r.value) == NonNullFolds(GroupKeys(cv.data, cv.data.index))
      ensures r.Ok? ==> forall o :: o in r.value ==>
        RegFold(cv.data, adj, wMatrix, kappa, runSelection, cv.dataColumns, cv.foldCol, cv.rootPath, scvMethod, o)
      ensures r.Ok? ==> cv.curDir == MethodDir(cv.rootPath, scvMethod)
    {
      InitFields();
      cv.MakeFolders(["folds", scvMethod]);
      assert Folders(["folds", scvMethod]) == [Named("folds"), Named(scvMethod)];
      cv.dataColumns := WithColumn(cv.dataColumns, X1DimCol);
      r := RunFolds(GroupKeys(cv.data, cv.data.index));
    }

    /** The loop of `run` over the fold labels `keys`, skipping the null fold. */
    method RunFolds(keys: seq<FoldLabel>) returns (r: Outcome<seq<FoldOutput>>)
      requires Valid()
      requires cv.foldCol in cv.dataColumns && X1DimCol in cv.dataColumns
      requires cv.curDir == MethodDir(cv.rootPath, scvMethod)
      modifies this, cv
      ensures Valid()
      ensures cv.dataColumns == old(cv.dataColumns) && wMatrix == old(wMatrix)
      ensures r.Ok? <==> forall f :: f in keys && f != NullFold ==>
        RegFoldOutput(cv.data, adj, wMatrix, kappa, runSelection, cv.dataColumns, cv.foldCol, cv.rootPath, scvMethod, f).Ok?
      ensures r.Ok? ==> FoldsOf(r.value) == NonNullFolds(keys)
      ensures r.Ok? ==> forall o :: o in r.value ==>
        RegFold(cv.data, adj, wMatrix, kappa, runSelection, cv.dataColumns, cv.foldCol, cv.rootPath, scvMethod, o)
      ensures r.Ok? ==> cv.curDir == MethodDir(cv.rootPath, scvMethod)
    {
      var data, columns, foldCol, rootPath, w := cv.data, cv.dataColumns, cv.foldCol, cv.rootPath, wMatrix;
      var out: seq<FoldOutput> := [];
      for j := 0 to |keys|
        invariant Valid()
        invariant cv.dataColumns == columns && wMatrix == w
        invariant cv.curDir == MethodDir(rootPath, scvMethod)
        invariant FoldsOf(out) == NonNullFolds(keys[..j])
        invariant forall f :: f in keys[..j] && f != NullFold ==>
          RegFoldOutput(data, adj, w, kappa, runSelection, columns, foldCol, rootPath, scvMethod, f).Ok?
        invariant forall o :: o in out ==> RegFold(data, adj, w, kappa, runSelection, columns, foldCol, rootPath, scvMethod, o)
      {
        var f := keys[j];
        ghost var before := out;
        if f != NullFold {
          var o := ProcessFold(f);
          if o.Fail? {
            return Fail(o.error);
          }
          out := out + [o.value];
        }
        FoldsStep(before, out, keys, j);
        assert forall g :: g in keys[..j + 1] ==> g in keys[..j] || g == f;
      }
      assert keys[..|keys|] == keys;
      r := Ok(out);
    }

    /**
     * The body of `run`'s loop for fold `f`: the fold's folder, the split, the sills, the two
     * propagations and their buffers, the record and the fold table, and the column clean-up; the
     * current directory then returns to the method folder.
     */
    method ProcessFold(f: FoldLabel) returns (r: Outcome<FoldOutput>)
      requires Valid()
      requires cv.foldCol in cv.dataColumns && X1DimCol in cv.dataColumns
      requires cv.curDir == MethodDir(cv.rootPath, scvMethod)
      modifies this, cv
      ensures Valid()
      ensures cv.dataColumns == old(cv.dataColumns) && wMatrix == old(wMatrix)
      ensures r.Ok? ==> cv.curDir == MethodDir(cv.rootPath, scvMethod)
      ensures r == RegFoldOutput(cv.data, adj, wMatrix, kappa, runSelection, cv.dataColumns, cv.foldCol, cv.rootPath, scvMethod, f)
    {
      cv.Mkdir(FoldDir(f));
      var dir := cv.curDir;
      var indexTest := Group(cv.data, cv.data.index, f);
      cv.SplitDataTestTrain(indexTest);
      InitiateBuffersSills();
      var removing := CalculateBuffers();
      if removing.Fail? {
        return Fail(removing.error);
      }
      RegBuffersRows(cv.data, adj, wMatrix, kappa, runSelection, indexTest);
      var o := FinishFold(f, dir, removing.value);
      r := Ok(o);
    }

    /**
     * The buffers of `run`'s loop: the reduced attribute is propagated and its selection buffer
     * taken, and with `run_selection` the training set becomes that buffer; the target is then
     * propagated over the training set and its removing buffer dropped from it.
     */
    method CalculateBuffers() returns (r: Outcome<seq<Idx>>)
      requires Valid()
      requires Distinct(cv.test.index) && cv.train.index == IndexTrain(cv.data, cv.test.index)
      modifies cv
      ensures Valid()
      ensures cv.test == old(cv.test) && cv.train.columns == old(cv.train.columns)
      ensures cv.dataColumns == old(cv.dataColumns) && cv.curDir == old(cv.curDir)
      ensures r.Fail? ==> RegBuffers(cv.data, adj, wMatrix, kappa, runSelection, cv.test.index) == Fail(r.error)
      ensures r.Ok? ==> RegBuffers(cv.data, adj, wMatrix, kappa, runSelection, cv.test.index) == Ok(Buffers(cv.train.index, r.value))
    {
      ghost var data, test, rest := cv.data, cv.test.index, cv.train.index;
      var reducedScores := PropagateVariance(Reduced);
      if reducedScores.Fail? {
        return Fail(reducedScores.error);
      }
      SelectTrain(reducedScores.value);
      ghost var grownOver := cv.train.index;
      var targetScores := PropagateVariance(Target);
      if targetScores.Fail? {
        return Fail(targetScores.error);
      }
      var removing := RemovingBuffer(cv.data, cv.test.index, targetScores.value, reducedScores.value);
      KeptFromScores(adj, test, grownOver, NodeScore(data, test, wMatrix, kappa, Target), Variance(Values(data, test, Target)));
      var dropped := cv.DropTrain(removing);
      r := Ok(removing);
    }

    /** With `run_selection`, the training set becomes the selection buffer of the reduced scores. */
    method SelectTrain(reducedScores: seq<(Idx, Float)>)
      requires Valid() && Distinct(cv.test.index)
      requires PropagatedScores(adj, cv.test.index, cv.train.index, NodeScore(cv.data, cv.test.index, wMatrix, kappa, Reduced)) == Ok(reducedScores)
      modifies cv
      ensures Valid()
      ensures cv.test == old(cv.test) && cv.train.columns == old(cv.train.columns)
      ensures cv.dataColumns == old(cv.dataColumns) && cv.curDir == old(cv.curDir)
      ensures cv.train.index == if runSelection then SelectionBuffer(cv.data, reducedScores, Reduced) else old(cv.train.index)
    {
      if runSelection {
        var selection := SelectionBuffer(cv.data, reducedScores, Reduced);
        KeptFromScores(adj, cv.test.index, cv.train.index, NodeScore(cv.data, cv.test.index, wMatrix, kappa, Reduced), GlobalVariance(cv.data, Reduced));
        var selected := cv.RestrictTrain(selection);
      }
    }

    /**
     * The end of `run`'s loop: the record of the buffers, the fold table of the training rows, and
     * the split without the `X_1DIM` and fold columns; the current directory returns to the
     * method folder.
     */
    method FinishFold(f: FoldLabel, dir: seq<Segment>, removing: seq<Idx>) returns (o: FoldOutput)
      requires Valid()
      requires X1DimCol in cv.train.columns && cv.foldCol in cv.train.columns
      requires X1DimCol in cv.test.columns && cv.foldCol in cv.test.columns
      modifies cv
      ensures Valid()
      ensures o == FoldOutput(f, dir, SplitRecord(old(cv.train.index), old(cv.test.index), removing,
          Discarded(cv.data, old(cv.train.index), old(cv.test.index), removing)),
        FoldTable(cv.data, old(cv.train.index)), WithoutColumns(old(cv.train.columns), [X1DimCol, cv.foldCol]),
        WithoutColumns(old(cv.test.columns), [X1DimCol, cv.foldCol]))
      ensures cv.dataColumns == old(cv.dataColumns) && cv.curDir == MethodDir(cv.rootPath, scvMethod)
    {
      var rec := cv.SaveBufferedIndexes(removing);
      var table := cv.SaveFoldByIndexTraining();
      var cleaned := cv.CleanData([X1DimCol, cv.foldCol]);
      o := FoldOutput(f, dir, rec, table.value, cv.train.columns, cv.test.columns);
      cv.curDir := MethodDir(cv.rootPath, scvMethod);
    }
  }
}
