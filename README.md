# Spatial cross-validation fold generators

This project models the fold generators of `src/scv/`. Each generator walks the fold labels of a
spatial dataset. For each label it takes that fold's rows as the test set and the other rows as
train. It then computes a removing buffer: training rows too close to the test set, in the
adjacency graph or statistically. The buffer is dropped from train. The fold's record holds four
lists: train, test, removing buffer and discarded rows.

- `Scv` holds the shared base, `SpatialCV`, as a class. It covers the split, the column
  clean-up, the drop of a buffer, and the record with its discarded rows.
- `OptimisticScv` has no buffer and skips the null fold `-1`.
- `Gbscv` and `GraphBased` cover the graph-based generator. The buffer grows ring by ring from the
  test set. Each ring's candidates are grouped by fold label. A group is admitted when its
  semivariogram is at most a decayed sill and the cap on distinct fold labels holds. A selection
  buffer may restrict train first.
- `RegGbscv` and `RegGraphBased` cover the regularised generator. It propagates over the
  reachable graph and scores each node with a geo-weighted semivariogram. It keeps the nodes
  scoring strictly below a variance.
- `Ultra` is the ultra-conservative generator. It picks one hop radius for the whole dataset: the
  first lag whose pooled ring semivariogram reaches the target variance. Every test set is then
  expanded by that many hops.
- `Traditional` picks its radius from a semivariogram given as lags and values. It buffers the
  training rows closer than that radius to some test row.
- `Floats`, `Stats`, `Seqs`, `Frames` and `Graph` are supporting modules:
  - `Floats`: IEEE values with NaN and the infinities.
  - `Stats`: pandas `var()` with `ddof=1`.
  - `Seqs`: order-preserving list filters.
  - `Frames`: data frames and `groupby`.
  - `Graph`: the adjacency matrix, one-hop neighbourhoods and breadth-first rings.

Each generator's `run` is a class method. It is proved against a specification function that
gives what the run leaves behind for one fold (`GbscvFoldOutput`, `RegFoldOutput`,
`UltraFoldOutput`, `TraditionalFoldOutput`). Lemmas state what that function guarantees: the
record is a split of the data, the buffers are disjoint rows of train, and the bounds on the
buffers hold.

## Model

| member | source | states |
|---|---|---|
| Floats.Log | src/scv/gbscv.py:156-158 | `np.log` of an integer is NaN below 0, `-inf` at 0 and 0 at 1 |
| Floats.NaNIncomparable | src/scv/gbscv.py:188 | no ordered comparison with NaN holds, in either direction |
| Floats.HalfNonNegative | src/scv/gbscv.py:65 | the mean of two non-negative finite values is non-negative and equals their arithmetic mean |
| Stats.Variance | src/scv/ultra_coservative.py:39-41 | the sample variance is NaN exactly when there is at most one value, and a non-negative finite value otherwise |
| Stats.SumNonNegative | src/scv/gbscv.py:130-131 | a sum of non-negative values is non-negative, and zero exactly when every value is zero |
| Stats.ConstantVariance | src/scv/gbscv.py:64 | two or more equal values have variance 0 |
| Frames.ValuesConcat | src/scv/reg_gbscv.py:79 | the column of two frames appended one after the other is the first frame's column followed by the second's |
| Frames.FoldColumn | src/scv/scv.py:45-49 | the fold column lists each row's fold label in row order |
| Frames.GroupKeys | src/scv/gbscv.py:203-205 | `groupby` visits the fold labels in strictly increasing order, and exactly the labels some row carries |
| Frames.GroupKeysCover | src/scv/gbscv.py:203-205 | every row's fold label is one of the visited labels |
| Frames.Group | src/scv/gbscv.py:203-209 | a group holds exactly the rows carrying the label, each once when the index has no duplicates |
| Scv.IndexTrain | src/scv/scv.py:29-31 | the training index is exactly the data rows outside the test index, each once |
| Scv.IndexTrainOrder | src/scv/scv.py:29-31 | the training index keeps the data order (it is a subsequence of the data index) |
| Scv.Discarded | src/scv/scv.py:63-65 | discarded is exactly the data rows in none of train, test and removing buffer |
| Scv.NothingDiscarded | src/scv/scv.py:60-65 | when train is every other row less the removing buffer, nothing is discarded |
| Scv.BufferedSplit | src/scv/scv.py:58-71 | dropping a buffer from rows of train leaves train and buffer disjoint and within the rows outside the test set |
| Scv.NonNullMembers | src/scv/optimistic.py:32-35 | the processed labels are exactly the visited labels other than `-1` |
| Scv.FoldsStep | src/scv/optimistic.py:32-49 | one loop step adds one record for a non-null label and none for `-1` |
| Scv.WithoutColumns | src/scv/scv.py:40-43 | dropping columns keeps exactly the columns not named |
| Scv.WithColumn | src/scv/gbscv.py:202 | assigning a column adds it, or leaves the columns as they were when it exists |
| Scv.FoldTableOtherFolds | src/scv/scv.py:45-49 | the fold table of a fold's training rows holds exactly those rows, each with its own fold label, and never the test fold's label |
| Scv.FoldersConcat | src/data.py:125-129 | making two lists of folders in turn makes the folders of their concatenation, one named folder per name |
| Scv.SpatialCV.constructor | src/scv/scv.py:23-27 | a new generator holds the data and empty train and test frames |
| Scv.SpatialCV.Mkdir | src/data.py:52-61 | the current directory gains one folder; nothing else changes |
| Scv.SpatialCV.MakeFolders | src/data.py:125-129 | the current directory becomes the root followed by the named folders |
| Scv.SpatialCV.SplitDataTestTrain | src/scv/scv.py:33-38 | test becomes the given rows and train every other data row, both with the data columns; the data is unchanged |
| Scv.SpatialCV.CleanData | src/scv/scv.py:40-43 | the named columns leave train and then test; a missing column raises at the first frame lacking it, and the rows never change |
| Scv.SpatialCV.DropTrain | src/scv/ultra_coservative.py:112 | dropping buffer rows from train removes exactly them, or raises and changes nothing when one is not in train |
| Scv.SpatialCV.RestrictTrain | src/scv/gbscv.py:219-220 | `loc` on the selection makes it the training index, or raises when a label is missing |
| Scv.SpatialCV.SaveBufferedIndexes | src/scv/scv.py:58-74 | the record holds train, test, the buffer as given, and the discarded rows |
| Scv.SpatialCV.SaveFoldByIndexTraining | src/scv/scv.py:45-49 | the fold table of train is saved exactly when the fold column is still in train |
| Graph.Neighbors | src/scv/gbscv.py:96-103 | the neighbourhood is exactly the columns, in column order, with a positive entry in some named row, less the named rows |
| Graph.NeighborsDistinct | src/scv/gbscv.py:96-103 | the neighbourhood lists each node once and none of the named rows |
| Graph.Restrict | src/scv/gbscv.py:111 | the local matrix has exactly the local rows and keeps their positive entries among them |
| Graph.Grow | src/scv/ultra_coservative.py:43-51 | growing rings starts with the seed and stays within the graph |
| Graph.GrowRing | src/scv/ultra_coservative.py:45-50 | growing one more ring appends the ring first reached at that many hops |
| Graph.GrowDistinct | src/scv/ultra_coservative.py:45-50 | growth from a duplicate-free seed lists each node once |
| Graph.GrowthShrinks | src/scv/gbscv.py:114-117 | a non-empty neighbourhood strictly shrinks the set of unseen nodes (the loop measure) |
| Graph.GrowPrefix | src/scv/ultra_coservative.py:45-50 | growth only appends: fewer rings give a prefix of more rings |
| Graph.GrowMonotone | src/scv/ultra_coservative.py:81-87 | a node within `k` hops is within any larger number of hops |
| Graph.LayersAreRings | src/scv/gbscv.py:105-118 | ring `j` is non-empty exactly when `j` is at most the number of layers |
| Graph.LayersBound | src/scv/gbscv.py:105-118 | there are no more layers than unseen nodes |
| Graph.RingsVanish | src/scv/gbscv.py:105-118 | every ring beyond as many hops as the graph has nodes is empty |
| OptimisticScv.ProcessedFolds | src/scv/optimistic.py:32-35 | the processed labels are exactly the labels other than `-1` that some row carries |
| OptimisticScv.Optimistic.constructor | src/scv/optimistic.py:12 | the generator wraps the given base |
| OptimisticScv.Optimistic.Run | src/scv/optimistic.py:26-53 | one record per non-null label in increasing order; each has an empty buffer, nothing discarded, train equal to every other row, the fold table of exactly those training rows with their labels, and the fold column dropped; the directory returns to the method folder |
| OptimisticScv.Optimistic.ProcessFold | src/scv/optimistic.py:35-49 | one fold's record has train equal to every other row, an empty buffer and nothing discarded, and its fold table is that of the training rows; the directory is reset |
| Gbscv.SimilarityMatrix | src/scv/gbscv.py:120-125 | entry (i, j) is the squared difference of test value i and fold value j, so it is non-negative and zero exactly when the two values are equal |
| Gbscv.SizeRectangular | src/scv/gbscv.py:132 | the size of a rectangular matrix is rows times columns |
| Gbscv.SimilarityTotal | src/scv/gbscv.py:128-133 | the total of the matrix is non-negative, and zero exactly when every test value equals every fold value |
| Gbscv.GammaOfSimilarity | src/scv/gbscv.py:127-133 | gamma is the total over twice the number of pairs, non-negative, and NaN when there are no pairs |
| Gbscv.QuotientSign | src/scv/gbscv.py:133 | a non-negative total over a positive count is non-negative, and zero exactly when the total is |
| Gbscv.ContextGamma | src/scv/gbscv.py:135-147 | one context per fold label of the training neighbours, in label order, each built from that label's neighbours |
| Gbscv.ContextMembers | src/scv/gbscv.py:138-146 | a context's members are exactly the training neighbours carrying its label |
| Gbscv.ContextsCover | src/scv/gbscv.py:138-146 | every training neighbour belongs to the context of its label |
| Gbscv.NFoldNeighbourhood | src/scv/gbscv.py:149-153 | the count is the number of distinct fold labels among the test set's neighbours in the data |
| Gbscv.ExponentDecay | src/scv/gbscv.py:155-158 | the exponent is 1 at the root, 0 at the last level and non-negative between; beyond the tree, or with fewer than two levels, no gamma is at most a decayed sill |
| Gbscv.ArgMax | src/scv/gbscv.py:73 | `max(..., key=get)` returns a key of the dict |
| Gbscv.ArgMaxIsMaximal | src/scv/gbscv.py:73 | no value of the dict is greater than the value at the returned key |
| Gbscv.RunningMaxIsMax | src/scv/gbscv.py:73-75 | over finite values the running maximum is one of them and no smaller than any |
| Gbscv.RunningMaxMember | src/scv/gbscv.py:73-75 | the running maximum is one of the values |
| Gbscv.HalfOfSills | src/scv/gbscv.py:65 | the mean of two sills is a sill (NaN or a non-negative finite value) |
| Gbscv.FoldSill | src/scv/gbscv.py:60-65 | a fold's sill is NaN or a non-negative finite value |
| Gbscv.PooledSill | src/scv/gbscv.py:60-65 | the pooled sill of a fold with the test set is a sill whenever the global variance is |
| Gbscv.LevelledMap | src/scv/gbscv.py:67-75 | the levelled dict has exactly the given keys |
| Gbscv.SillMapFacts | src/scv/gbscv.py:77-89 | the sill dict has exactly the fold labels, each mapped to its sill |
| Gbscv.SillSeqAt | src/scv/gbscv.py:77-89 | the sills in label order are the sills of the labels |
| Gbscv.ArgMaxAppend | src/scv/gbscv.py:72-73 | adding a label to a levelled dict makes the maximum the new value when it is greater, the old level otherwise |
| Gbscv.RunningMaxStep | src/scv/gbscv.py:72-75 | one levelling step keeps every entry at the running maximum of the sills so far |
| Gbscv.SillPrefix | src/scv/gbscv.py:83-89 | one more label extends the sill list and the sill dict by that label's sill |
| Gbscv.AssignAll | src/scv/gbscv.py:74-75 | the loop sets every existing key to the maximum and adds none |
| Gbscv.Levelled | src/scv/gbscv.py:67-75 | after a selection-sill update the dict gains the label, and every entry holds one common value |
| Gbscv.LevelledMaximal | src/scv/gbscv.py:67-75 | that common value is the largest sill held so far |
| Gbscv.SelectionUpdate | src/scv/gbscv.py:67-75 | the in-place update of the dict and its key order gives the levelled dict |
| Gbscv.FillSills | src/scv/gbscv.py:77-89 | the loop gives the target sill of every label and the reduced sills levelled to their maximum |
| Gbscv.TargetSills | src/scv/gbscv.py:60-65 | the target sills are keyed by exactly the training fold labels, each a sill |
| Gbscv.ReducedSills | src/scv/gbscv.py:67-75 | the reduced sills are keyed by exactly the training fold labels, each a sill |
| Gbscv.ConsistentFolds | src/scv/gbscv.py:187-189 | the folds-in-buffer list names exactly the labels of the buffered rows |
| Gbscv.AdmitExtends | src/scv/gbscv.py:183-191 | admission only appends to buffer and folds; an admitting pass adds a label and rows |
| Gbscv.AdmitOrigin | src/scv/gbscv.py:183-191 | every newly buffered row comes from a context whose label was admitted and whose gamma is at most its decayed sill |
| Gbscv.AdmitConsistent | src/scv/gbscv.py:183-191 | admission keeps the buffer duplicate-free, within train, and within the cap on distinct labels |
| Gbscv.RoundFresh | src/scv/gbscv.py:176-180 | a round's contexts hold fresh, distinct training rows of their label |
| Gbscv.NoAdmissionBeyondTree | src/scv/gbscv.py:185-188 | past the tree's depth no context passes the decayed sill |
| Gbscv.AdmitGroups | src/scv/gbscv.py:183-191 | the inner loop computes the admission pass and reports whether it grew |
| Gbscv.FreshHaveSills | src/scv/gbscv.py:186 | every context of a round has a sill and members |
| Gbscv.RoundContexts | src/scv/gbscv.py:176-180 | a round's contexts hold fresh rows among the neighbours of test and buffer |
| Gbscv.NextRound | src/scv/gbscv.py:172-192 | a round keeps the invariant, only appends, grows the buffer whenever it admits, and admits nothing when the cap is below one |
| Gbscv.GrowBuffer | src/scv/gbscv.py:160-193 | the growth loop keeps the invariant and only appends; with a cap below one it adds nothing |
| Gbscv.GrowthRound | src/scv/gbscv.py:172-192 | one loop iteration computes the next round and sets `growing` exactly when it admitted |
| Gbscv.BufferLoop | src/scv/gbscv.py:160-193 | the while loop returns the buffer of the growth specification |
| Gbscv.AdmitNone | src/scv/gbscv.py:188 | when no context passes the sill, admission changes nothing |
| Gbscv.GrowBufferStops | src/scv/gbscv.py:185-192 | past the tree's depth the loop stops without growing |
| Gbscv.AdmitWithin | src/scv/gbscv.py:191 | admitted rows come from the contexts' members |
| Gbscv.NextRoundWithin | src/scv/gbscv.py:176-191 | a round adds only rows one hop further out |
| Gbscv.GrowStep | src/scv/gbscv.py:172-192 | one iteration either stops the loop or grows the buffer by rows of the next ring |
| Gbscv.GrowBufferWithinTree | src/scv/gbscv.py:160-193 | the grown buffer lies within the tree's depth of the test set |
| Gbscv.GrowWithinTreeStep | src/scv/gbscv.py:172-192 | inside the tree each step keeps the buffer within the tree |
| Gbscv.GrowWithinTreeAfter | src/scv/gbscv.py:172-192 | the rounds that follow an admitting round, started at a depth no greater than the tree's with the buffer within that depth, keep the grown buffer within the tree's depth of the test set |
| Gbscv.BufferFacts | src/scv/gbscv.py:160-193 | the buffer is duplicate-free rows of train with at most `cap` labels, empty with a cap below one, and with log-like sills empty for a shallow tree and within the tree |
| Gbscv.TreeSizeLevels | src/scv/gbscv.py:105-118 | the longest path is 0 without local neighbours and the number of non-empty layers plus one otherwise |
| Gbscv.TreeLevels | src/scv/gbscv.py:105-118 | the while loop returns that count |
| Gbscv.GbscvBufferFacts | src/scv/gbscv.py:160-193 | `_calculate_buffer` gives duplicate-free training rows, never test rows, with at most `n_fold_neighbors * kappa` labels, none when that is below one; with log-like sills it lies within the tree |
| Gbscv.GbscvBufferWithin | src/scv/gbscv.py:160-193 | the buffer is made of training rows |
| Gbscv.GrownOverSetting | src/scv/gbscv.py:215-227 | the selection buffer is a valid training set for the removing buffer |
| Gbscv.FoldBuffersOf | src/scv/gbscv.py:215-228 | the fold's buffers are the selection buffer (or every other row) less the removing buffer, and the removing buffer |
| Gbscv.FoldBuffersRows | src/scv/gbscv.py:215-228 | train and removing buffer are duplicate-free, disjoint rows outside the test set; without selection, train is every other row less the buffer |
| Gbscv.FoldBuffersCap | src/scv/gbscv.py:187-188 | the removing buffer holds at most `n_fold_neighbors * kappa` labels, and is empty when that is below one |
| Gbscv.FoldBuffersWithinTree | src/scv/gbscv.py:215-228 | with log-like sills the buffers lie within the BFS tree of the test set |
| Gbscv.GbscvFoldOutputOf | src/scv/gbscv.py:203-238 | a fold's output is its folder, its record of buffers, its fold table and the columns without `X_1DIM` and the fold column |
| Gbscv.FoldOutputFacts | src/scv/gbscv.py:203-238 | a fold's record is a split of the data around it, with duplicate-free buffers, the label cap, a fold-table entry per training row, and nothing discarded without selection |
| Gbscv.FoldOutputWithOf | src/scv/gbscv.py:206-238 | the fold output in terms of its test set and buffers |
| Gbscv.BuffersRecord | src/scv/gbscv.py:228-232 | disjoint buffers of the other rows give a split record; without selection nothing is discarded |
| Gbscv.GbscvFoldWithinTree | src/scv/gbscv.py:203-228 | with the sills `var()` produces, the buffers of each fold lie within the BFS tree of its test set |
| GraphBased.GraphBasedSCV.constructor | src/scv/gbscv.py:35-43 | a new generator has empty sill dicts |
| GraphBased.GraphBasedSCV.Run | src/scv/gbscv.py:195-242 | one fold output per label in increasing order (the null fold included), each the graph-based fold of its label; `X_1DIM` joins the columns; the directory returns to the method folder |
| GraphBased.GraphBasedSCV.InitFields | src/scv/gbscv.py:45-47 | both sill dicts become empty |
| GraphBased.GraphBasedSCV.CalculateRemovingBufferSill | src/scv/gbscv.py:60-65 | the target sill of the label becomes the pooled sill; the other dict is unchanged |
| GraphBased.GraphBasedSCV.CalculateSelectionBufferSill | src/scv/gbscv.py:67-75 | the reduced dict becomes the levelled dict with the label's pooled sill |
| GraphBased.GraphBasedSCV.LongestPath | src/scv/gbscv.py:105-118 | the method returns the tree size of test and train |
| GraphBased.GraphBasedSCV.CalculateBuffer | src/scv/gbscv.py:160-193 | the method returns the graph-based buffer of train, made of training rows |
| GraphBased.GraphBasedSCV.ProcessFold | src/scv/gbscv.py:206-238 | one loop iteration yields the graph-based fold of the label |
| GraphBased.GraphBasedSCV.PrepareFold | src/scv/gbscv.py:207-213 | after the split and the sills, test is the fold's rows and the sills are those of its training rows |
| GraphBased.GraphBasedSCV.FinishFold | src/scv/gbscv.py:228-238 | the buffer leaves train, the record and fold table are saved, the columns are cleaned and the directory is reset |
| GraphBased.GraphBasedSCV.CalculateBuffers | src/scv/gbscv.py:215-228 | train and the removing buffer become the fold's buffers |
| GraphBased.GraphBasedSCV.RemoveBuffer | src/scv/gbscv.py:224-228 | the removing buffer is computed on the current train and dropped from it |
| GraphBased.GraphBasedSCV.SelectTrain | src/scv/gbscv.py:215-220 | train becomes the selection buffer |
| GraphBased.GraphBasedSCV.InitiateBuffersSills | src/scv/gbscv.py:77-89 | the dicts become the target sills and the levelled reduced sills of the training labels |
| RegGbscv.NodeSimilarity | src/scv/reg_gbscv.py:131-136 | one non-negative squared difference per test value |
| RegGbscv.RegularisedShrinks | src/scv/reg_gbscv.py:139-141 | with weights and `kappa` between 0 and 1, each regularised term lies between 0 and its squared difference, and equals it where the weight is 1 |
| RegGbscv.RegGammaPlain | src/scv/reg_gbscv.py:139-144 | with `kappa = 0` or all weights 1 the regularised gamma is the plain `sum / (2n)` |
| RegGbscv.SparseNodeGamma | src/scv/reg_gbscv.py:46-51 | with the Sparse all-ones weights a node's gamma is the plain gamma, non-negative for a non-empty test set |
| RegGbscv.NodeScoreAre | src/scv/reg_gbscv.py:150-160 | the score of each data row is its node gamma |
| RegGbscv.ScoresConcat | src/scv/reg_gbscv.py:185-187 | scoring two neighbour lists in turn gives the concatenated scores |
| RegGbscv.ScoresKeyOrder | src/scv/reg_gbscv.py:153-155 | the scored nodes are the neighbours present in train, in neighbour order |
| RegGbscv.ScoresKeys | src/scv/reg_gbscv.py:153-159 | one entry per neighbour in train, each once when the neighbours are distinct |
| RegGbscv.ScoresEntries | src/scv/reg_gbscv.py:153-159 | every entry is a training neighbour with its score |
| RegGbscv.ScoresOfKept | src/scv/reg_gbscv.py:153 | filtering the neighbours by train first changes nothing |
| RegGbscv.BelowSill | src/scv/reg_gbscv.py:195-197 | exactly the nodes with a score strictly below the sill |
| RegGbscv.Selected | src/scv/reg_gbscv.py:195-197 | exactly the training neighbours scoring strictly below the sill |
| RegGbscv.BelowSillScores | src/scv/reg_gbscv.py:191-198 | filtering the scores is filtering the scored nodes |
| RegGbscv.SelectionBuffer | src/scv/reg_gbscv.py:191-198 | exactly the nodes scoring strictly below the whole-dataset variance |
| RegGbscv.RemovingBuffer | src/scv/reg_gbscv.py:200-215 | exactly the nodes whose target score is strictly below the test-set target variance; the reduced scores play no part |
| RegGbscv.RoundsStep | src/scv/reg_gbscv.py:179-188 | a round appends the next ring; an empty ring with the buffer short means the loop never ends |
| RegGbscv.PropagatedFresh | src/scv/reg_gbscv.py:181-188 | the propagated nodes are distinct graph nodes, none in the test set |
| RegGbscv.PropagatedPrefix | src/scv/reg_gbscv.py:188 | more rounds propagate to a superset |
| RegGbscv.RoundsFacts | src/scv/reg_gbscv.py:173-189 | the loop ends at the first round whose buffer holds `n` nodes, and never ends exactly when fewer than `n` are reachable |
| RegGbscv.PropagationFacts | src/scv/reg_gbscv.py:173-189 | the final buffer has at least `n` distinct reachable nodes outside test, made of whole rings; it diverges exactly when fewer are reachable |
| RegGbscv.GammaByNode | src/scv/reg_gbscv.py:150-160 | the loop scores exactly the training neighbours, in order |
| RegGbscv.NextRing | src/scv/reg_gbscv.py:181-183 | the next ring is empty exactly when the loop can no longer end, and otherwise extends the grown list |
| RegGbscv.PropagateVariance | src/scv/reg_gbscv.py:173-189 | the loop returns the scores of the propagated nodes, or diverges |
| RegGbscv.ArgMaxAgree | src/scv/reg_gbscv.py:82 | `max` over a dict depends only on the values at its keys |
| RegGbscv.ArgMaxRunning | src/scv/reg_gbscv.py:82 | the value at the `max` key is the running maximum of the sills in label order |
| RegGbscv.AssignEach | src/scv/reg_gbscv.py:83-84 | every key of the reduced dict gets the maximum in the max dict; other keys keep their value |
| RegGbscv.RegSelectionUpdate | src/scv/reg_gbscv.py:75-84 | the reduced dict gets the label's variance and the max dict is overwritten with the levelled maximum |
| RegGbscv.LevelledStep | src/scv/reg_gbscv.py:83-84 | one more label levels the dict to the running maximum over the labels so far |
| RegGbscv.FillRegSills | src/scv/reg_gbscv.py:86-98 | the loop gives the target and reduced sill dicts, and the max dict becomes its old entries overwritten by the levelled maxima |
| RegGbscv.MaxReducedIsLargest | src/scv/reg_gbscv.py:75-84 | after an update every fresh max entry is the largest reduced sill so far |
| RegGbscv.KeptFromScores | src/scv/reg_gbscv.py:191-215 | the kept nodes are distinct training rows scoring strictly below the sill |
| RegGbscv.RegBuffersFacts | src/scv/reg_gbscv.py:237-251 | a fold's propagations never end exactly when fewer nodes are reachable than there are other rows |
| RegGbscv.RegBuffersRows | src/scv/reg_gbscv.py:237-254 | train and buffer are distinct, disjoint rows outside test; buffered rows score below the test target variance; with selection every row scores below the global `X_1DIM` variance; without it train is every other row less the buffer |
| RegGbscv.RegFoldFacts | src/scv/reg_gbscv.py:224-266 | a fold fails exactly when too few nodes are reachable; otherwise its record is a split of the data with a fold-table entry per training row, and nothing is discarded without selection |
| RegGraphBased.RegGraphBasedSCV.constructor | src/scv/reg_gbscv.py:35-44 | a new generator has empty sill dicts and the given weights |
| RegGraphBased.RegGraphBasedSCV.InitFields | src/scv/reg_gbscv.py:46-54 | Sparse mode sets all-ones weights; the three sill dicts become empty |
| RegGraphBased.RegGraphBasedSCV.CalculateRemovingBufferSill | src/scv/reg_gbscv.py:68-73 | the target sill of the label becomes the pooled sill |
| RegGraphBased.RegGraphBasedSCV.CalculateSelectionBufferSill | src/scv/reg_gbscv.py:75-84 | the reduced sill is the plain variance; the max dict is overwritten with the levelled maximum |
| RegGraphBased.RegGraphBasedSCV.InitiateBuffersSills | src/scv/reg_gbscv.py:86-98 | the dicts become the target sills, the reduced variances, and the old max entries overwritten by the levelled maxima |
| RegGraphBased.RegGraphBasedSCV.PropagateVariance | src/scv/reg_gbscv.py:173-189 | the method returns the propagated scores of the attribute |
| RegGraphBased.RegGraphBasedSCV.Run | src/scv/reg_gbscv.py:217-270 | the run succeeds exactly when every non-null fold does, with one output per non-null label, each the regularised fold of its label |
| RegGraphBased.RegGraphBasedSCV.RunFolds | src/scv/reg_gbscv.py:223-266 | the loop over the labels stops at the first non-null fold that diverges, and otherwise yields the regularised fold of every non-null label in order |
| RegGraphBased.RegGraphBasedSCV.ProcessFold | src/scv/reg_gbscv.py:227-266 | one loop iteration yields the regularised fold of the label, or its divergence |
| RegGraphBased.RegGraphBasedSCV.CalculateBuffers | src/scv/reg_gbscv.py:237-254 | train and removing buffer become the fold's buffers, or the propagation's failure |
| RegGraphBased.RegGraphBasedSCV.SelectTrain | src/scv/reg_gbscv.py:238-242 | with selection, train becomes the selection buffer; otherwise unchanged |
| RegGraphBased.RegGraphBasedSCV.FinishFold | src/scv/reg_gbscv.py:254-266 | the buffer leaves train, the record and fold table are saved, the columns are cleaned and the directory is reset |
| Ultra.GetLagNeighbors | src/scv/ultra_coservative.py:43-51 | the extended list is the seed grown `lag` rings; the result is the ring at `lag` hops, unbound when `lag` is 0 |
| Ultra.RingFresh | src/scv/ultra_coservative.py:43-51 | the ring at `lag` hops is distinct and disjoint from the seed and from every earlier ring |
| Ultra.SquaredDiffs | src/scv/ultra_coservative.py:67 | one non-negative squared difference per neighbour |
| Ultra.AccumulatePairs | src/scv/ultra_coservative.py:62-69 | the pair count is zero exactly when no row has a ring neighbour |
| Ultra.AccumulateStep | src/scv/ultra_coservative.py:62-69 | one row adds its differences to the sum and their number to the count |
| Ultra.PairsVanish | src/scv/ultra_coservative.py:62-70 | beyond the graph's size no lag has pairs |
| Ultra.TotalsOfAre | src/scv/ultra_coservative.py:60-70 | the lag totals are those of the rows' ring differences, and they vanish beyond the graph's size |
| Ultra.TotalsVanish | src/scv/ultra_coservative.py:62-70 | the totals have no pairs beyond the graph's size |
| Ultra.SearchFromFacts | src/scv/ultra_coservative.py:58-72 | the search returns the first lag whose pooled gamma is not below the sill, all earlier ones below; it fails with a zero division exactly at a lag without pairs |
| Ultra.BufferSizeFacts | src/scv/ultra_coservative.py:53-72 | with a NaN sill the radius is 0; otherwise the first lag reaching the sill, or a zero division |
| Ultra.PooledTotals | src/scv/ultra_coservative.py:60-69 | the inner loop computes the lag's totals |
| Ultra.RowDiffsAre | src/scv/ultra_coservative.py:63-67 | each row's differences are those with its ring neighbours |
| Ultra.SumRows | src/scv/ultra_coservative.py:62-69 | the row loop accumulates the totals of every row |
| Ultra.RowTotal | src/scv/ultra_coservative.py:63-67 | one row's differences |
| Ultra.CalculateBufferSize | src/scv/ultra_coservative.py:53-72 | the method returns the radius of the specification |
| Ultra.SearchLags | src/scv/ultra_coservative.py:55-72 | the while loop returns the search's result, or 0 when the sill is `-inf` or NaN |
| Ultra.UltraBufferMembers | src/scv/ultra_coservative.py:79-93 | the buffer is exactly the data rows outside test within `k` hops of it |
| Ultra.UltraBufferMonotone | src/scv/ultra_coservative.py:81-93 | a larger radius buffers a superset |
| Ultra.UltraBufferRepeats | src/scv/ultra_coservative.py:86-87 | a last-ring row in the data outside test is listed twice |
| Ultra.UltraFoldFacts | src/scv/ultra_coservative.py:95-122 | a fold's record is a split of the data, train is every other row less the buffer, and the buffer is exactly the other rows within `k` hops |
| Ultra.UltraFoldOutputOf | src/scv/ultra_coservative.py:107-122 | the fold output in terms of its buffer, which lies in the other rows |
| Ultra.UltraConservative.constructor | src/scv/ultra_coservative.py:36-37 | a new generator has no sill yet |
| Ultra.UltraConservative.CalculateSill | src/scv/ultra_coservative.py:39-41 | the sill becomes the target variance of the data |
| Ultra.UltraConservative.CalculateBuffer | src/scv/ultra_coservative.py:79-93 | the buffer of the test set at the radius, or the unbound ring at radius 0 |
| Ultra.UltraConservative.Run | src/scv/ultra_coservative.py:95-126 | the run fails exactly when the search fails or the radius is 0 with some fold; otherwise one ultra-conservative fold per label at the one radius, the data columns unchanged and the directory back at the method folder |
| Ultra.UltraConservative.RunFolds | src/scv/ultra_coservative.py:103-122 | the loop fails exactly when the radius is 0 and there is a fold; otherwise it yields the fold at that radius for every label, in order, and the directory is back at the method folder |
| Ultra.UltraConservative.ProcessFold | src/scv/ultra_coservative.py:106-122 | one loop iteration yields the fold at radius `k`, or fails at radius 0 |
| Ultra.UltraConservative.FinishFold | src/scv/ultra_coservative.py:112-122 | the buffer leaves train, the record and fold table are saved, the fold column is dropped and the directory is reset |
| Traditional.FirstLagAboveFacts | src/scv/traditional_scv.py:73-74 | a radius exists exactly when some paired value exceeds the sill, and is the lag of the first one; otherwise IndexError |
| Traditional.SqDist | src/scv/traditional_scv.py:81 | the squared distance is non-negative and 0 for the same point |
| Traditional.MinSqDistIsMin | src/scv/traditional_scv.py:81-83 | the minimum is at most every distance to a test point and is one of them |
| Traditional.DistanceBufferMembers | src/scv/traditional_scv.py:76-85 | exactly the training rows with a test row strictly within the radius, in train order |
| Traditional.DistanceBufferNonPositive | src/scv/traditional_scv.py:85 | a radius of at most 0 buffers nothing |
| Traditional.DistanceBufferCoincident | src/scv/traditional_scv.py:81-85 | with a positive radius, a training row at a test row's place is buffered |
| Traditional.CloserMonotone | src/scv/traditional_scv.py:85 | closer than a radius implies closer than any larger one |
| Traditional.DistanceBufferMonotone | src/scv/traditional_scv.py:85 | a larger radius buffers a superset |
| Traditional.TraditionalFoldFacts | src/scv/traditional_scv.py:113-129 | a fold's record is a split of the data with nothing discarded; train is every other row less the buffer, and all of it when the radius is at most 0 |
| Traditional.TraditionalSCV.constructor | src/scv/traditional_scv.py:40 | a new generator has no sill yet |
| Traditional.TraditionalSCV.CalculateSill | src/scv/traditional_scv.py:42-44 | the sill becomes the target variance of the data |
| Traditional.TraditionalSCV.CalculateBufferSize | src/scv/traditional_scv.py:46-74 | the radius is the first lag whose value exceeds the sill |
| Traditional.TraditionalSCV.Run | src/scv/traditional_scv.py:104-137 | the run fails exactly when no lag exceeds the sill; otherwise one traditional fold per label, null fold included, at the one radius; `x` and `y` join the columns |
| Traditional.TraditionalSCV.ProcessFold | src/scv/traditional_scv.py:113-129 | one loop iteration yields the traditional fold of the label at the radius |
| Traditional.TraditionalSCV.FinishFold | src/scv/traditional_scv.py:121-129 | the buffer leaves train, the record and fold table are saved, the fold column and coordinates are dropped and the directory is reset |

## Left out

- PCA (`_calculate_train_pca`) is not modelled. Each row carries its first-component value as
  `Row.reduced`, and the `paper` column choice goes with it.
- `np.log` in the decay exponent is a parameter `ln`. The lemmas that need its shape require it to be
  positive above 1 (`LogPositive`). `Floats.Log` gives 0 at 1 itself.
- `geostats.gamv` is a foreign call. Its lags and values are inputs of `TraditionalSCV`.
- `cdist` is compared through squared distances. `d < r` is `r > 0 && d*d < r*r`, which holds for
  non-negative distances.
- `_generate_x_y` (centroids, CRS handling, the join) is not modelled. Each row carries its
  centroid as `Row.x` and `Row.y`. `Run` requires that `x` and `y` are not yet columns, because
  the join would raise on overlapping columns.
- File writes are not modelled: JSON, CSV and feather files, `_save_data`'s `reset_index`,
  `_save_time`, timing, printing and tqdm. The model returns the record, the fold table and the
  columns that would be written.
- Folder creation is modelled as the current directory path only.
- Python set order is replaced by a fixed order:
  - `list({...})` in the ultra-conservative rings follows adjacency column order.
  - `list(set(...))` in the graph-based run (`gbscv.py:219` and `:227`) is not modelled as a
    reordering. The selection and removing buffers keep the order in which the buffer admits
    rows: round by round, by ascending fold label within a round, and in column order within a
    fold. Under selection that order becomes the order of train, through `.loc`, and the removing
    buffer is stored in the record in that order.
  - Groupings follow ascending fold label.
  - Only which rows are listed, and how often, is modelled.
- GraphBased.GraphBasedSCV.Valid, RegGbscv.RegSetting and Ultra.UltraSetting require every data
  row to be a label of the adjacency matrix. A data row missing from the matrix is not modelled:
  the source's `.loc` raises KeyError on it (`gbscv.py:99` and `:111`, `ultra_coservative.py:46`
  and `:82`, `reg_gbscv.py:110`). For the regularised generator this also excludes null-fold rows
  absent from the matrix, which the source never looks up.
- Graph.Adjacency: an entry is recorded only as positive or not, and negative weights are not
  modelled. The source's `sum(axis=0) > 0` is read as "some entry in the column is positive", which
  agrees with the source only when no weight is negative.
- `_convert_adj_matrix_index_types` is not modelled. Adjacency labels and data indices share one
  type.
- RegGbscv.Rounds: when too few nodes are reachable, `_propagate_variance` loops forever. The model
  returns `Fail(Diverges)` in exactly that case.
- Scv.SpatialCV.CleanData, Scv.SpatialCV.DropTrain and the other members returning an error do not
  model the state left by a failing run: which directory is current and which frames were already
  updated.
- RegGraphBased.RegGraphBasedSCV.constructor: outside Sparse mode the weights are given here. The
  source's default is an empty frame, which would raise KeyError at the first lookup.
- `_calculate_longest_path`, `_get_n_fold_neighbohood` and `_calculate_exponent` in
  `reg_gbscv.py` are not modelled. Its `run` never calls them.
- The sill dicts of `reg_gbscv.py` are computed and stated, but the buffers do not read them, as in
  the source.
- `_calculate_selection_buffer_sill` in `reg_gbscv.py` does not take its unused `global_var`.
- `src/scv/cv.py` (random KFold) is not part of this model.
- Integers and reals are unbounded. Floating-point rounding is not modelled. NaN and the
  infinities are, where `var()`, `np.log` or a division produce them.
