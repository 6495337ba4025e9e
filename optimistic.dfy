/** The optimistic spatial cross-validation: one fold per fold label, with no removing buffer. */
module OptimisticScv {
  import opened Seqs
  import opened Frames
  import opened Scv

  /** The folder name of the optimistic folds. */
  const OptimisticName: string := "Optimistic"

  /** The fold labels a run produces folds for: the group keys in increasing order, less the null fold. */
  function ProcessedFolds(data: Dataset): (r: seq<FoldLabel>)
    requires forall i :: i in data.index ==> i in data.rows
    ensures forall f :: f in r <==> f != NullFold && exists i :: i in data.index && data.rows[i].fold == f
  {
    NonNullMembers(GroupKeys(data, data.index));
    NonNullFolds(GroupKeys(data, data.index))
  }

  /** The facts one fold of an optimistic run satisfies. */
  ghost predicate OptimisticFold(data: Dataset, dataColumns: seq<string>, foldCol: string, rootPath: seq<Segment>, o: FoldOutput)
  {
    o.dir == MethodDir(rootPath, OptimisticName) + [FoldDir(o.fold)]
    && SplitOf(data, o.fold, o.record)
    && o.record.train == IndexTrain(data, o.record.test)
    && o.record.removingBuffer == []
    && o.record.discarded == []
    && (forall i :: i in o.record.train ==> i in data.rows)
    && o.foldTable == FoldTable(data, o.record.train)
    && o.trainColumns == WithoutColumns(dataColumns, [foldCol])
    && o.testColumns == WithoutColumns(dataColumns, [foldCol])
  }

  class Optimistic {
    const cv: SpatialCV

    constructor(cv: SpatialCV)
      ensures this.cv == cv
    {
      this.cv := cv;
    }

    /**
     * `run`: for every fold label but the null fold, in increasing order, the test set is that
     * fold's rows and the training set all the other rows; the removing buffer is empty, so
     * nothing is discarded. The fold table is taken while train still has the fold column, which
     * is then dropped, and the current directory returns to the method folder after every fold,
     * so fold folders do not nest.
     */
    method Run() returns (out: seq<FoldOutput>)
      requires cv.Valid()
      requires cv.foldCol in cv.dataColumns
      modifies cv
      ensures cv.Valid()
      ensures FoldsOf(out) == ProcessedFolds(cv.data)
      ensures forall o :: o in out ==> OptimisticFold(cv.data, cv.dataColumns, cv.foldCol, cv.rootPath, o)
      ensures cv.curDir == MethodDir(cv.rootPath, OptimisticName)
      ensures cv.dataColumns == old(cv.dataColumns)
    {
      cv.MakeFolders(["folds", OptimisticName]);
      assert Folders(["folds", OptimisticName]) == [Named("folds"), Named(OptimisticName)];
      var data, columns, foldCol, rootPath := cv.data, cv.dataColumns, cv.foldCol, cv.rootPath;
      var keys := GroupKeys(data, data.index);
      out := [];
      for j := 0 to |keys|
        invariant cv.Valid()
        invariant cv.dataColumns == columns
        invariant cv.curDir == MethodDir(rootPath, OptimisticName)
        invariant FoldsOf(out) == NonNullFolds(keys[..j])
        invariant forall o :: o in out ==> OptimisticFold(data, columns, foldCol, rootPath, o)
      {
        var f := keys[j];
        ghost var before := out;
        if f != NullFold {
          var o := ProcessFold(f);
          out := out + [o];
        }
        FoldsStep(before, out, keys, j);
      }
      assert keys[..|keys|] == keys;
    }

    /** The body of `run`'s loop for one fold label other than the null fold. */
    method ProcessFold(f: FoldLabel) returns (o: FoldOutput)
      requires cv.Valid()
      requires cv.foldCol in cv.dataColumns
      requires cv.curDir == MethodDir(cv.rootPath, OptimisticName)
      modifies cv
      ensures cv.Valid()
      ensures cv.dataColumns == old(cv.dataColumns)
      ensures cv.curDir == MethodDir(cv.rootPath, OptimisticName)
      ensures o.fold == f
      ensures OptimisticFold(cv.data, cv.dataColumns, cv.foldCol, cv.rootPath, o)
    {
      cv.Mkdir(FoldDir(f));
      var dir := cv.curDir;
      var indexTest := Group(cv.data, cv.data.index, f);
      cv.SplitDataTestTrain(indexTest);
      var rec := cv.SaveBufferedIndexes([]);
      NothingDiscarded(cv.data, indexTest, []);
      assert Without(IndexTrain(cv.data, indexTest), []) == IndexTrain(cv.data, indexTest) by {
        WithoutExtremes(IndexTrain(cv.data, indexTest), []);
      }
      var table := cv.SaveFoldByIndexTraining();
      var cleaned := cv.CleanData([cv.foldCol]);
      cv.curDir := MethodDir(cv.rootPath, OptimisticName);
      o := FoldOutput(f, dir, rec, table.value, cv.train.columns, cv.test.columns);
    }
  }
}
