/** The `GraphBasedSCV` fold generator: its sill dictionaries and its `run` loop over the folds. */
module GraphBased {
  import opened Seqs
  import opened Floats
  import opened Frames
  import opened Graph
  import opened Scv
  import opened Gbscv

  class GraphBasedSCV {
    const cv: SpatialCV
    const adj: Adjacency
    const kappa: int
    const runSelection: bool
    /** The natural logarithm `np.log` applies. */
    const ln: real -> real
    var sillTarget: map<FoldLabel, Float>
    var sillReduced: map<FoldLabel, Float>
    /** The insertion order of the keys of `sillReduced`, as a Python dict keeps it. */
    var reducedOrder: seq<FoldLabel>

    /** The adjacency matrix is square over a superset of the dataset's rows. */
    ghost predicate Valid()
      reads this`sillReduced, this`reducedOrder, cv`train, cv`test
    {
      cv.Valid() && Graph.Valid(adj) && (forall i :: i in cv.data.rows ==> i in adj.positive)
      && LogPositive(ln)
      && Distinct(reducedOrder) && Elems(reducedOrder) == sillReduced.Keys
    }

    constructor(cv: SpatialCV, adj: Adjacency, kappa: int, runSelection: bool, ln: real -> real)
      requires cv.Valid() && Graph.Valid(adj) && (forall i :: i in cv.data.rows ==> i in adj.positive)
      requires LogPositive(ln)
      ensures Valid()
      ensures this.cv == cv && this.adj == adj && this.kappa == kappa && this.runSelection == runSelection && this.ln == ln
      ensures sillTarget == map[] && sillReduced == map[] && reducedOrder == []
    {
      this.cv := cv;
      this.adj := adj;
      this.kappa := kappa;
      this.runSelection := runSelection;
      this.ln := ln;
      sillTarget := map[];
      sillReduced := map[];
      reducedOrder := [];
    }

    /**
     * `run`: one fold per fold label, the null fold included, in increasing label order, each
     * written to its own folder under `RBuffer` (or `SRBuffer` with a selection buffer). The
     * `X_1DIM` column is added to the dataset first; its values are the rows' `reduced` field.
     */
    method Run() returns (out: seq<FoldOutput>)
      requires Valid()
      requires cv.foldCol in cv.dataColumns
      modifies this, cv
      ensures Valid()
      ensures cv.dataColumns == WithColumn(old(cv.dataColumns), X1DimCol)
      ensures FoldsOf(out) == GroupKeys(cv.data, cv.data.index)
      ensures forall o :: o in out ==> GbscvFold(cv.data, adj, kappa, runSelection, ln, cv.dataColumns, cv.foldCol, cv.rootPath, o)
      ensures cv.curDir == MethodDir(cv.rootPath, FoldsName(runSelection))
    {
      InitFields();
      var name := FoldsName(runSelection);
      cv.MakeFolders(["folds", name]);
      assert Folders(["folds", name]) == [Named("folds"), Named(name)];
      cv.dataColumns := WithColumn(cv.dataColumns, X1DimCol);
      var data, columns, foldCol, rootPath := cv.data, cv.dataColumns, cv.foldCol, cv.rootPath;
      var keys := GroupKeys(data, data.index);
      out := [];
      for j := 0 to |keys|
        invariant Valid()
        invariant cv.dataColumns == columns
        invariant cv.curDir == MethodDir(rootPath, name)
        invariant FoldsOf(out) == keys[..j]
        invariant forall o :: o in out ==> GbscvFold(data, adj, kappa, runSelection, ln, columns, foldCol, rootPath, o)
      {
        var o := ProcessFold(keys[j]);
        FoldsAppend(out, o, keys, j);
        out := out + [o];
      }
      assert keys[..|keys|] == keys;
    }

    /** `_init_fields`: empties both sill dictionaries. */
    method InitFields()
      requires Valid()
      modifies this
      ensures Valid()
      ensures sillTarget == map[] && sillReduced == map[] && reducedOrder == []
    {
      sillTarget := map[];
      sillReduced := map[];
      reducedOrder := [];
    }

    /** `_calculate_removing_buffer_sill`: sets the target sill of fold `f`. */
    method CalculateRemovingBufferSill(f: FoldLabel, foldData: seq<Idx>, globalVar: Float)
      requires Valid()
      requires forall i :: i in foldData ==> i in cv.data.rows
      modifies this
      ensures Valid()
      ensures sillTarget == old(sillTarget)[f := PooledSill(cv.data, foldData, cv.test.index, Target, globalVar)]
      ensures sillReduced == old(sillReduced) && reducedOrder == old(reducedOrder)
    {
      sillTarget := sillTarget[f := PooledSill(cv.data, foldData, cv.test.index, Target, globalVar)];
    }

    /**
     * `_calculate_selection_buffer_sill`: sets the reduced sill of fold `f`, then gives every entry
     * the value of the `>`-maximal entry in insertion order, so that no entry exceeds any other.
     */
    method CalculateSelectionBufferSill(f: FoldLabel, foldData: seq<Idx>, globalVar: Float)
      requires Valid()
      requires forall i :: i in foldData ==> i in cv.data.rows
      modifies this
      ensures Valid()
      ensures sillTarget == old(sillTarget)
      ensures reducedOrder == SelectionOrder(old(reducedOrder), old(sillReduced), f)
      ensures sillReduced == Levelled(old(reducedOrder), old(sillReduced), f, PooledSill(cv.data, foldData, cv.test.index, Reduced, globalVar))
    {
      var v := PooledSill(cv.data, foldData, cv.test.index, Reduced, globalVar);
      reducedOrder, sillReduced := SelectionUpdate(reducedOrder, sillReduced, f, v);
    }

    /**
     * `_calculate_longest_path`: the number of levels of the breadth-first tree rooted at the test
     * set inside the graph of test and training rows.
     */
    method LongestPath() returns (sizeTree: nat)
      requires Valid()
      requires Distinct(cv.test.index) && Distinct(cv.train.index)
      ensures sizeTree == TreeSize(adj, cv.test.index, cv.train.index)
    {
      var test := cv.test.index;
      assert forall i :: i in test ==> i !in cv.train.index;
      DistinctConcat(test, cv.train.index);
      var m := Restrict(adj, test + cv.train.index);
      sizeTree := TreeLevels(m, test);
    }

    /**
     * `_calculate_buffer`: the buffer grown around the test set, with the tree size of
     * `_calculate_longest_path` and a cap of `n_fold_neighbors * kappa` fold labels.
     */
    method CalculateBuffer(a: Attribute, sill: map<FoldLabel, Float>, kappa: int) returns (buffer: seq<Idx>)
      requires Valid()
      requires Distinct(cv.test.index) && BufferSetting(cv.data, adj, cv.train.index, cv.test.index, sill)
      ensures buffer == GbscvBuffer(cv.data, adj, cv.train.index, cv.test.index, a, sill, kappa, ln)
      ensures forall i :: i in buffer ==> i in cv.train.index
    {
      var sizeTree := LongestPath();
      var nFoldNeighbors := NFoldNeighbourhood(cv.data, adj, cv.test.index);
      buffer := BufferLoop(cv.data, adj, cv.train.index, cv.test.index, a, sill, sizeTree, nFoldNeighbors * kappa, ln);
      GbscvBufferWithin(cv.data, adj, cv.train.index, cv.test.index, a, sill, kappa, ln);
    }

    /**
     * The body of `run`'s loop for fold `f`: the fold's folder, the split, the sills, the buffers,
     * the record and the fold table, and the column clean-up; the current directory then returns
     * to the method folder.
     */
    method ProcessFold(f: FoldLabel) returns (o: FoldOutput)
      requires Valid()
      requires cv.foldCol in cv.dataColumns && X1DimCol in cv.dataColumns
      requires cv.curDir == MethodDir(cv.rootPath, FoldsName(runSelection))
      modifies this, cv
      ensures Valid()
      ensures cv.dataColumns == old(cv.dataColumns)
      ensures cv.curDir == MethodDir(cv.rootPath, FoldsName(runSelection))
      ensures o == GbscvFoldOutput(cv.data, adj, kappa, runSelection, ln, cv.dataColumns, cv.foldCol, cv.rootPath, f)
    {
      cv.Mkdir(FoldDir(f));
      var dir := cv.curDir;
      PrepareFold(f);
      var removing := CalculateBuffers();
      GbscvFoldOutputOf(cv.data, adj, kappa, runSelection, ln, cv.dataColumns, cv.foldCol, cv.rootPath, f, cv.test.index, sillReduced, sillTarget, Buffers(cv.train.index, removing));
      o := FinishFold(f, dir, removing);
    }

    /**
     * The start of `run`'s loop for fold `f`: the fold's rows become the test set, every other
     * row the training set, and the sill dictionaries are filled from the training folds.
     */
    method PrepareFold(f: FoldLabel)
      requires Valid()
      modifies this, cv
      ensures Valid()
      ensures var test := Group(cv.data, cv.data.index, f);
        cv.test == Frame(test, cv.dataColumns) && cv.train == Frame(IndexTrain(cv.data, test), cv.dataColumns)
        && sillReduced == ReducedSills(cv.data, IndexTrain(cv.data, test), test)
        && sillTarget == TargetSills(cv.data, IndexTrain(cv.data, test), test)
      ensures Distinct(cv.test.index) && SillsCover(cv.data, cv.test.index, sillReduced, sillTarget)
      ensures cv.dataColumns == old(cv.dataColumns) && cv.curDir == old(cv.curDir)
    {
      var indexTest := Group(cv.data, cv.data.index, f);
      cv.SplitDataTestTrain(indexTest);
      InitiateBuffersSills();
    }

    /**
     * The end of `run`'s loop: the record of the buffers, the fold table of the training rows, and
     * the split without the `X_1DIM` and fold columns; the current directory returns to the
     * method folder.
     */
    method FinishFold(f: FoldLabel, dir: seq<Segment>, removing: seq<Idx>) returns (o: FoldOutput)
      requires Valid()
      requires X1DimCol in cv.train.columns && cv.foldCol in cv.train.columns
      requires X1DimCol in cv.test.columns && cv.foldCol in cv.test.columns
      modifies cv
      ensures Valid()
      ensures o == FoldOutput(f, dir, SplitRecord(old(cv.train.index), old(cv.test.index), removing,
          Discarded(cv.data, old(cv.train.index), old(cv.test.index), removing)),
        FoldTable(cv.data, old(cv.train.index)), WithoutColumns(old(cv.train.columns), [X1DimCol, cv.foldCol]),
        WithoutColumns(old(cv.test.columns), [X1DimCol, cv.foldCol]))
      ensures cv.dataColumns == old(cv.dataColumns) && cv.curDir == MethodDir(cv.rootPath, FoldsName(runSelection))
    {
      var rec := cv.SaveBufferedIndexes(removing);
      var table := cv.SaveFoldByIndexTraining();
      var cleaned := cv.CleanData([X1DimCol, cv.foldCol]);
      o := FoldOutput(f, dir, rec, table.value, cv.train.columns, cv.test.columns);
      cv.curDir := MethodDir(cv.rootPath, FoldsName(runSelection));
    }

    /**
     * The buffers of `run`'s loop: with a selection buffer, the training set becomes the buffer
     * grown on the reduced attribute; the removing buffer is then grown on the target and dropped
     * from the training set.
     */
    method CalculateBuffers() returns (removing: seq<Idx>)
      requires Valid()
      requires Distinct(cv.test.index) && cv.train.index == IndexTrain(cv.data, cv.test.index)
      requires SillsCover(cv.data, cv.test.index, sillReduced, sillTarget)
      modifies cv
      ensures Valid()
      ensures cv.test == old(cv.test) && cv.train.columns == old(cv.train.columns)
      ensures cv.dataColumns == old(cv.dataColumns) && cv.curDir == old(cv.curDir)
      ensures Buffers(cv.train.index, removing) == FoldBuffers(cv.data, adj, kappa, runSelection, ln, sillReduced, sillTarget, cv.test.index)
    {
      ghost var data, test := cv.data, cv.test.index;
      GrownOverSetting(data, adj, test, sillReduced, sillTarget, kappa, runSelection, ln);
      if runSelection {
        SelectTrain();
      }
      ghost var grownOver := cv.train.index;
      removing := RemoveBuffer();
      FoldBuffersOf(data, adj, kappa, runSelection, ln, sillReduced, sillTarget, test, grownOver, removing);
    }

    /** The removing buffer is grown on the target over the training set and dropped from it. */
    method RemoveBuffer() returns (removing: seq<Idx>)
      requires Valid()
      requires Distinct(cv.test.index) && (forall i :: i in cv.train.index ==> i !in cv.test.index)
      requires BufferSetting(cv.data, adj, cv.train.index, cv.test.index, sillTarget)
      modifies cv
      ensures Valid()
      ensures cv.test == old(cv.test) && cv.train.columns == old(cv.train.columns)
      ensures cv.dataColumns == old(cv.dataColumns) && cv.curDir == old(cv.curDir)
      ensures removing == GbscvBuffer(cv.data, adj, old(cv.train.index), cv.test.index, Target, sillTarget, kappa, ln)
      ensures cv.train.index == Without(old(cv.train.index), removing)
    {
      removing := CalculateBuffer(Target, sillTarget, kappa);
      var dropped := cv.DropTrain(removing);
    }

    /** The selection buffer is grown on the reduced attribute over the training set and becomes it. */
    method SelectTrain()
      requires Valid()
      requires Distinct(cv.test.index) && (forall i :: i in cv.train.index ==> i !in cv.test.index)
      requires BufferSetting(cv.data, adj, cv.train.index, cv.test.index, sillReduced)
      modifies cv
      ensures Valid()
      ensures cv.test == old(cv.test) && cv.train.columns == old(cv.train.columns)
      ensures cv.dataColumns == old(cv.dataColumns) && cv.curDir == old(cv.curDir)
      ensures cv.train.index == GbscvBuffer(cv.data, adj, old(cv.train.index), cv.test.index, Reduced, sillReduced, kappa, ln)
    {
      var selection := CalculateBuffer(Reduced, sillReduced, kappa);
      var selected := cv.RestrictTrain(selection);
    }

    /**
     * `_initiate_buffers_sills`: for every fold of the training set, in increasing label order, the
     * target sill is the fold's pooled sill, and every reduced sill ends as the running `>`-maximum
     * of the folds' reduced pooled sills.
     */
    method InitiateBuffersSills()
      requires Valid()
      modifies this
      ensures Valid()
      ensures reducedOrder == GroupKeys(cv.data, cv.train.index)
      ensures sillTarget == TargetSills(cv.data, cv.train.index, cv.test.index)
      ensures sillReduced == ReducedSills(cv.data, cv.train.index, cv.test.index)
    {
      var keys := GroupKeys(cv.data, cv.train.index);
      IncreasingIsDistinct(keys);
      var target := SillOf(cv.data, cv.train.index, cv.test.index, Target);
      var reduced := SillOf(cv.data, cv.train.index, cv.test.index, Reduced);
      var order, targetMap, reducedMap := FillSills(keys, target, reduced);
      sillTarget, sillReduced, reducedOrder := targetMap, reducedMap, order;
    }
  }
}
