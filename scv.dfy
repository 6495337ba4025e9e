/**
 * The base of every spatial cross-validation variant: the split of the dataset into the test set of
 * one fold and the training set of the others, the column clean-up, and the per-fold record of
 * train, test, removing buffer and discarded indexes.
 */
module Scv {
  import opened Seqs
  import opened Floats
  import opened Stats
  import opened Frames

  /** A component of the output path: a fixed folder name or the folder of one fold label. */
  datatype Segment = Named(name: string) | FoldDir(fold: FoldLabel)

  /** A data frame taken from the dataset: its row labels and its column names. */
  datatype Frame = Frame(index: seq<Idx>, columns: seq<string>)

  /** The content of `split_data.json`. */
  datatype SplitRecord = SplitRecord(train: seq<Idx>, test: seq<Idx>, removingBuffer: seq<Idx>, discarded: seq<Idx>)

  /** What a variant's `run` leaves behind for one fold. */
  datatype FoldOutput = FoldOutput(
    fold: FoldLabel,
    dir: seq<Segment>,
    record: SplitRecord,
    foldTable: seq<(Idx, FoldLabel)>,
    trainColumns: seq<string>,
    testColumns: seq<string>)

  /** The fold labels of a run's outputs, in output order. */
  function FoldsOf(outs: seq<FoldOutput>): (r: seq<FoldLabel>)
    ensures |r| == |outs|
    ensures forall k :: 0 <= k < |outs| ==> r[k] == outs[k].fold
  {
    seq(|outs|, k requires 0 <= k < |outs| => outs[k].fold)
  }

  /** The whole-dataset variance of an attribute (`self.data[col].var()`). */
  function GlobalVariance(data: Dataset, a: Attribute): Float
    requires WellFormed(data)
  {
    Variance(Values(data, data.index, a))
  }

  /** Appending the output of the next fold label keeps the outputs in step with the labels. */
  lemma FoldsAppend(out: seq<FoldOutput>, o: FoldOutput, keys: seq<FoldLabel>, j: nat)
    requires j < |keys| && FoldsOf(out) == keys[..j] && o.fold == keys[j]
    ensures FoldsOf(out + [o]) == keys[..j + 1]
  {
    assert keys[..j + 1] == keys[..j] + [keys[j]];
    assert FoldsOf(out + [o]) == FoldsOf(out) + [o.fold];
  }

  /** The fold labels of `keys` other than the null fold, in the order of `keys`. */
  function NonNullFolds(keys: seq<FoldLabel>): (r: seq<FoldLabel>)
    decreases |keys|
  {
    if keys == [] then []
    else
      var last := keys[|keys| - 1];
      NonNullFolds(keys[..|keys| - 1]) + (if last != NullFold then [last] else [])
  }

  /** `NonNullFolds` keeps exactly the labels other than the null fold. */
  lemma {:induction false} NonNullMembers(keys: seq<FoldLabel>)
    ensures forall f :: f in NonNullFolds(keys) <==> f in keys && f != NullFold
    decreases |keys|
  {
    if keys != [] {
      var init := keys[..|keys| - 1];
      NonNullMembers(init);
      assert keys == init + [keys[|keys| - 1]];
    }
  }

  /** One step of a run's loop: a fold output is appended exactly for a label other than the null fold. */
  lemma FoldsStep(before: seq<FoldOutput>, after: seq<FoldOutput>, keys: seq<FoldLabel>, j: nat)
    requires j < |keys|
    requires FoldsOf(before) == NonNullFolds(keys[..j])
    requires keys[j] == NullFold ==> after == before
    requires keys[j] != NullFold ==> |after| == |before| + 1 && after[..|before|] == before && after[|before|].fold == keys[j]
    ensures FoldsOf(after) == NonNullFolds(keys[..j + 1])
  {
    assert keys[..j + 1][..j] == keys[..j];
    if keys[j] != NullFold {
      assert FoldsOf(after) == FoldsOf(before) + [keys[j]];
    }
  }

  /** The training index of a test index: the data indexes not in it, in data order. */
  function IndexTrain(data: Dataset, indexTest: seq<Idx>): (r: seq<Idx>)
    ensures forall i :: i in r <==> i in data.index && i !in indexTest
    ensures Distinct(data.index) ==> Distinct(r)
  {
    KeepWithoutOrder(data.index, indexTest);
    Without(data.index, indexTest)
  }

  /** The training index keeps the data order, and so has no duplicates when the data index has none. */
  lemma IndexTrainOrder(data: Dataset, indexTest: seq<Idx>)
    ensures IsSubseq(IndexTrain(data, indexTest), data.index)
    ensures Distinct(data.index) ==> Distinct(IndexTrain(data, indexTest))
  {
    KeepWithoutOrder(data.index, indexTest);
  }

  /**
   * The discarded indexes of a record: the data indexes in none of train, test and removing
   * buffer. Together the four lists cover the data index, and discarded shares no index with the
   * other three.
   */
  function Discarded(data: Dataset, train: seq<Idx>, test: seq<Idx>, removing: seq<Idx>): (r: seq<Idx>)
    ensures forall i :: i in r <==> i in data.index && i !in train && i !in test && i !in removing
  {
    Without(data.index, train + test + removing)
  }

  /**
   * When train is the rest of the data less the removing buffer, and the buffer lies in the rest
   * of the data, nothing is discarded.
   */
  lemma NothingDiscarded(data: Dataset, indexTest: seq<Idx>, removing: seq<Idx>)
    requires forall i :: i in removing ==> i in IndexTrain(data, indexTest)
    ensures Discarded(data, Without(IndexTrain(data, indexTest), removing), indexTest, removing) == []
  {
    var train := Without(IndexTrain(data, indexTest), removing);
    WithoutExtremes(data.index, train + indexTest + removing);
  }

  /**
   * Training rows left after dropping a buffer from rows of the rest of the data, with the buffer
   * drawn from those rows, make a record whose train and buffer lie in the rest and are disjoint.
   */
  lemma BufferedSplit(data: Dataset, indexTest: seq<Idx>, grownOver: seq<Idx>, removing: seq<Idx>)
    requires forall i :: i in grownOver ==> i in IndexTrain(data, indexTest)
    requires forall i :: i in removing ==> i in grownOver
    ensures var train := Without(grownOver, removing);
      (forall i :: i in train ==> i in IndexTrain(data, indexTest))
      && (forall i :: i in removing ==> i in IndexTrain(data, indexTest) && i !in train)
  {
  }

  /** `df.drop(columns=drop)` on a column list: the columns not dropped, in their order. */
  function WithoutColumns(columns: seq<string>, drop: seq<string>): (r: seq<string>)
    ensures forall c :: c in r <==> c in columns && c !in drop
    ensures |r| <= |columns|
    decreases |columns|
  {
    if columns == [] then []
    else if columns[0] in drop then WithoutColumns(columns[1..], drop)
    else [columns[0]] + WithoutColumns(columns[1..], drop)
  }

  /** `df[column] = values` on a column list: a new column goes last, an existing one stays where it is. */
  function WithColumn(columns: seq<string>, c: string): (r: seq<string>)
    ensures c in r && forall d :: d in columns ==> d in r
    ensures c in columns ==> r == columns
  {
    if c in columns then columns else columns + [c]
  }

  /** `train_data[fold_col]` as (row label, fold label) pairs, in the order of `ids`. */
  function FoldTable(data: Dataset, ids: seq<Idx>): (r: seq<(Idx, FoldLabel)>)
    requires forall i :: i in ids ==> i in data.rows
    ensures |r| == |ids|
    ensures forall k :: 0 <= k < |ids| ==> ids[k] in data.rows && r[k] == (ids[k], data.rows[ids[k]].fold)
  {
    var r := seq(|ids|, k requires 0 <= k < |ids| => if ids[k] in data.rows then (ids[k], data.rows[ids[k]].fold) else (ids[k], NullFold));
    forall k | 0 <= k < |ids| ensures ids[k] in data.rows && r[k] == (ids[k], data.rows[ids[k]].fold) {
      var i := ids[k];
      assert i in ids;
    }
    r
  }

  /**
   * The fold table of a fold's training rows never carries that fold's label: it holds exactly the
   * training rows, each with its own label.
   */
  lemma FoldTableOtherFolds(data: Dataset, f: FoldLabel, train: seq<Idx>)
    requires WellFormed(data)
    requires forall i :: i in train ==> i in IndexTrain(data, Group(data, data.index, f))
    ensures forall i :: i in train ==> i in data.rows
    ensures forall p :: p in FoldTable(data, train) <==> p.0 in train && p.1 == data.rows[p.0].fold
    ensures forall p :: p in FoldTable(data, train) ==> p.1 != f
  {
    var test := Group(data, data.index, f);
    forall i | i in train ensures i in data.rows && data.rows[i].fold != f {
      assert i in data.index && i !in test;
      assert i in Elems(data.index);
    }
    var t := FoldTable(data, train);
    forall p ensures p in t <==> p.0 in train && p.1 == data.rows[p.0].fold {
      if p in t {
        var k :| 0 <= k < |t| && t[k] == p;
        assert train[k] in train;
      }
      if p.0 in train && p.1 == data.rows[p.0].fold {
        var k :| 0 <= k < |train| && train[k] == p.0;
        assert t[k] == p;
      }
    }
  }

  /** The path segments of a list of folder names. */
  function Folders(names: seq<string>): (r: seq<Segment>)
    ensures |r| == |names|
    ensures forall k :: 0 <= k < |names| ==> r[k] == Named(names[k])
  {
    seq(|names|, k requires 0 <= k < |names| => Named(names[k]))
  }

  /** Making two lists of folders one after the other makes the folders of their concatenation. */
  lemma FoldersConcat(a: seq<string>, b: seq<string>)
    ensures Folders(a + b) == Folders(a) + Folders(b)
  {
    forall k | 0 <= k < |a| + |b| ensures Folders(a + b)[k] == (Folders(a) + Folders(b))[k] {
      if k < |a| {
        assert (a + b)[k] == a[k];
      } else {
        assert (a + b)[k] == b[k - |a|];
      }
    }
  }

  /** The folder a variant writes its folds into: the root path, then `folds`, then the variant's name. */
  function MethodDir(rootPath: seq<Segment>, name: string): seq<Segment>
  {
    rootPath + [Named("folds"), Named(name)]
  }

  /**
   * The facts every record of a fold generator satisfies: test is the fold's group in data order,
   * train and removing buffer lie in the rest of the data and share no index, and discarded is the
   * complement of the other three.
   */
  ghost predicate SplitOf(data: Dataset, fold: FoldLabel, rec: SplitRecord)
  {
    rec.test == Group(data, data.index, fold)
    && (forall i :: i in rec.train ==> i in IndexTrain(data, rec.test))
    && (forall i :: i in rec.removingBuffer ==> i in IndexTrain(data, rec.test) && i !in rec.train)
    && rec.discarded == Discarded(data, rec.train, rec.test, rec.removingBuffer)
  }

  class SpatialCV {
    const data: Dataset
    const foldCol: string
    const rootPath: seq<Segment>
    var dataColumns: seq<string>
    var train: Frame
    var test: Frame
    var curDir: seq<Segment>

    /** Train and test hold rows of the dataset and share none. */
    ghost predicate Valid()
      reads this`train, this`test
    {
      WellFormed(data)
      && (forall i :: i in train.index ==> i in data.rows)
      && (forall i :: i in test.index ==> i in data.rows)
      && (forall i :: i in train.index ==> i !in test.index)
    }

    constructor(data: Dataset, dataColumns: seq<string>, foldCol: string, rootPath: seq<Segment>)
      requires WellFormed(data)
      ensures Valid()
      ensures this.data == data && this.dataColumns == dataColumns && this.foldCol == foldCol
      ensures this.rootPath == rootPath
      ensures train == Frame([], []) && test == Frame([], []) && curDir == []
    {
      this.data := data;
      this.dataColumns := dataColumns;
      this.foldCol := foldCol;
      this.rootPath := rootPath;
      train := Frame([], []);
      test := Frame([], []);
      curDir := [];
    }

    /** `_mkdir`: descends into a sub-folder of the current directory. */
    method Mkdir(segment: Segment)
      modifies this
      ensures curDir == old(curDir) + [segment]
      ensures train == old(train) && test == old(test) && dataColumns == old(dataColumns)
    {
      curDir := curDir + [segment];
    }

    /** `_make_folders`: starts from the root path and descends through `folders`. */
    method MakeFolders(folders: seq<string>)
      modifies this
      ensures curDir == rootPath + Folders(folders)
      ensures train == old(train) && test == old(test) && dataColumns == old(dataColumns)
    {
      curDir := rootPath;
      for k := 0 to |folders|
        invariant curDir == rootPath + Folders(folders[..k])
        invariant train == old(train) && test == old(test) && dataColumns == old(dataColumns)
      {
        Mkdir(Named(folders[k]));
        assert Folders(folders[..k + 1]) == Folders(folders[..k]) + [Named(folders[k])];
      }
      assert folders[..|folders|] == folders;
    }

    /**
     * `_split_data_test_train`: the test set is the given rows, the training set every other row
     * of the dataset, both with all the dataset's columns. The dataset itself is a constant.
     */
    method SplitDataTestTrain(indexTest: seq<Idx>)
      requires Valid()
      requires forall i :: i in indexTest ==> i in data.rows
      modifies this
      ensures Valid()
      ensures test == Frame(indexTest, dataColumns)
      ensures train == Frame(IndexTrain(data, indexTest), dataColumns)
      ensures dataColumns == old(dataColumns) && curDir == old(curDir)
    {
      test := Frame(indexTest, dataColumns);
      train := Frame(IndexTrain(data, indexTest), dataColumns);
    }

    /**
     * `_clean_data`: drops the columns from train, then from test. A column missing from either
     * raises KeyError (`ok` is false), and a frame it is missing from is left as it was.
     */
    method CleanData(drop: seq<string>) returns (ok: bool)
      modifies this
      ensures ok <==> (forall c :: c in drop ==> c in old(train.columns)) && (forall c :: c in drop ==> c in old(test.columns))
      ensures train.index == old(train.index) && test.index == old(test.index)
      ensures ok ==> train.columns == WithoutColumns(old(train.columns), drop)
      ensures ok ==> test.columns == WithoutColumns(old(test.columns), drop)
      ensures !ok && (forall c :: c in drop ==> c in old(train.columns)) ==> train.columns == WithoutColumns(old(train.columns), drop)
      ensures !(forall c :: c in drop ==> c in old(train.columns)) ==> train == old(train)
      ensures !ok ==> test == old(test)
      ensures dataColumns == old(dataColumns) && curDir == old(curDir)
    {
      if forall c :: c in drop ==> c in train.columns {
        train := train.(columns := WithoutColumns(train.columns, drop));
        if forall c :: c in drop ==> c in test.columns {
          test := test.(columns := WithoutColumns(test.columns, drop));
          ok := true;
        } else {
          ok := false;
        }
      } else {
        ok := false;
      }
    }

    /**
     * `train_data.drop(index=labels)`: removes every row whose label is listed. A label that is
     * not a training row raises KeyError (`ok` is false) and leaves train as it was.
     */
    method DropTrain(labels: seq<Idx>) returns (ok: bool)
      requires Valid()
      modifies this
      ensures Valid()
      ensures ok <==> forall i :: i in labels ==> i in old(train.index)
      ensures ok ==> train.index == Without(old(train.index), labels)
      ensures !ok ==> train == old(train)
      ensures train.columns == old(train.columns) && test == old(test)
      ensures dataColumns == old(dataColumns) && curDir == old(curDir)
    {
      if forall i :: i in labels ==> i in train.index {
        train := train.(index := Without(train.index, labels));
        ok := true;
      } else {
        ok := false;
      }
    }

    /**
     * `train_data = train_data.loc[selection]`: keeps the listed training rows, in the listed
     * order. A label that is not a training row raises KeyError (`ok` is false).
     */
    method RestrictTrain(selection: seq<Idx>) returns (ok: bool)
      requires Valid()
      modifies this
      ensures Valid()
      ensures ok <==> forall i :: i in selection ==> i in old(train.index)
      ensures ok ==> train.index == selection
      ensures !ok ==> train == old(train)
      ensures train.columns == old(train.columns) && test == old(test)
      ensures dataColumns == old(dataColumns) && curDir == old(curDir)
    {
      if forall i :: i in selection ==> i in train.index {
        train := train.(index := selection);
        ok := true;
      } else {
        ok := false;
      }
    }

    /**
     * `_save_buffered_indexes`: the record of the current fold. Train and test are stored in their
     * current order and the removing buffer verbatim, duplicates included.
     */
    method SaveBufferedIndexes(removing: seq<Idx>) returns (rec: SplitRecord)
      ensures rec == SplitRecord(train.index, test.index, removing, Discarded(data, train.index, test.index, removing))
    {
      var discarded := Without(data.index, train.index + test.index + removing);
      rec := SplitRecord(train.index, test.index, removing, discarded);
    }

    /**
     * `_save_fold_by_index_training`: the fold label of every training row, in train order. Once
     * the fold column is dropped from train, `train_data[fold_col]` raises KeyError (`None`).
     */
    method SaveFoldByIndexTraining() returns (table: Option<seq<(Idx, FoldLabel)>>)
      requires Valid()
      ensures table.Some? <==> foldCol in train.columns
      ensures table.Some? ==> table.value == FoldTable(data, train.index)
    {
      if foldCol !in train.columns {
        return None;
      }
      var rows: seq<(Idx, FoldLabel)> := [];
      for k := 0 to |train.index|
        invariant |rows| == k
        invariant forall j :: 0 <= j < k ==> train.index[j] in data.rows && rows[j] == (train.index[j], data.rows[train.index[j]].fold)
      {
        var i := train.index[k];
        assert i in train.index;
        rows := rows + [(i, data.rows[i].fold)];
      }
      assert rows == FoldTable(data, train.index);
      table := Some(rows);
    }
  }
}
