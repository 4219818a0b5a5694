# Phenotype Microarray growth-curve analysis, modelled in Dafny

This project models the scoring pipeline of the Phenotype Microarray analysis
scripts. The pipeline takes optical-density (OD) readings of clones grown on
nutrient sources under growth conditions, in replicate wells. It proves
properties of each stage:

- the list and index helpers every stage is built from (running offsets,
  slicing, de-duplication, counting, stride reordering, pairing);
- the grouping of replicate columns into half-open META column ranges, and
  the reordering of results from condition-major to clone-major order;
- the replicate filter (Misfits, NoGrowth, Linear, Growth), the median curve
  that skips filtered columns, the block asymptote, P2 and the
  second-largest window growth rate;
- the logistic-fit residual and the exhaustive lag-phase search (the first
  minimum wins);
- the ratio scores and performance labels, the harmonic means and the two
  class ladders;
- the modified Dice similarity matrix over the class vectors;
- the `PMData` record builder of the later rewrite, as a class whose parse
  methods update its fields;
- the `GrowthCurve` extractors of the later rewrite (overlapping-window
  asymptote, second-largest rate, harmonic growth level).

OD values and times are Dafny `real`s. Python lists that the helpers append to
in place are passed in and returned extended. Each method states the whole
extended list in terms of a specification function, and the lemmas prove what
that function means. The module-level globals the source reads (`META`,
`experiment_time`, `time_vector`, `newHMFlag`) are explicit parameters.
Transcendental values are inputs: log10 or ln of a curve, the exponential of
the logistic model (a parameter `exp` that is positive everywhere), and the
fitted logistic curve of `GrowthCurve`. A NaN median is `None`.

Quirks of the source are kept as written:

- `filter` records 0-based replicate indexes. `rep_median` tests 1-based META
  columns against them, so a removed replicate still enters the median of its
  group (`ExperimentUnit.FilteredReplicateStillCounted`).
- `filter` reads data from META row 5 on, skipping the first time row.
- The linearity rate is `repList[idx+2] - repList[idx]/60`, because of
  operator precedence.
- `classification` appends to the module-level list, not to its parameter.
- In the Dice table, every pair involving 'Class E' scores nothing, except
  D against E, which scores 1.
- In `PMData`, the replicate counter starts from the empty previous name, so a
  leading run of empty clone names is numbered from 2
  (`PMDataModel.RepNumberEmptyName`).

`scripts/py/GrowthCurve.py` cannot run as written: it reads the undefined
`self.data` and `self.nReads`, and calls the `Models` module as a function.
The model takes the evident intent, which reads `self.data` in two ways. At
line 15 (`median(self.data, axis=0)`) it is the replicate matrix passed to the
constructor, so the median curve is `MedianColumns(data)`. At lines 27 and 37
it is the median curve, and its length is the number of reads.

## Model

| member | source | states |
|---|---|---|
| `ListHelpers.IndexesFromIterationBlock` | scripts/PManalysis.py:123-126 | each appended entry is the block size plus the entry x places earlier; from `[start]` the result is the len(block)+1 running sums of the block |
| `ListHelpers.PrefixSumsMonotone` | scripts/PManalysis.py:123-126 | offsets of non-negative sizes start at 0, never decrease and end at the total |
| `ListHelpers.SublistByIterationSet` | scripts/PManalysis.py:129-133 | appends the Python slices `xs[steps[i-1]:steps[i]]` for consecutive offsets, one fewer than the offsets |
| `ListHelpers.SlicesConcat` | scripts/PManalysis.py:129-133 | slicing at non-decreasing offsets from 0 to len(xs) and concatenating the slices gives xs back |
| `ListHelpers.SublistRoundTrip` | scripts/PManalysis.py:123-133 | slicing at the running sums of sizes that total len(xs) gives pieces of exactly those sizes that concatenate back to xs |
| `ListHelpers.SlicesOfConcat` | scripts/PManalysis.py:123-133 | concatenating lists and slicing at the running sums of their lengths gives the lists back |
| `ListHelpers.SliceBySizes` | scripts/PManalysis.py:123-133 | the idiom of building offsets from `[0]` and then slicing appends consecutive pieces of the given sizes |
| `ListHelpers.FrequencyOfElements` | scripts/PManalysis.py:136-141 | appends, for each element of list1, its multiplicity in list2, keeping list3's earlier entries |
| `ListHelpers.UniqueList` | scripts/PManalysis.py:143-149 | the result extends uniq_list, holds exactly the elements of both lists and stays duplicate-free |
| `ListHelpers.UniqueFirstAppearance` | scripts/PManalysis.py:143-149 | what is appended is the first appearance of each new element, in input order |
| `ListHelpers.UniqueIdempotent` | scripts/PManalysis.py:143-149 | running unique_list again on its own output changes nothing |
| `ListHelpers.UniqueOfDistinct` | scripts/PManalysis.py:143-149 | a list already free of duplicates passes through unchanged |
| `ListHelpers.ReorderMultiples` | scripts/PManalysis.py:150-156 | appends the strides `xs[a::m]` for a = 0 .. m-1, one after the other, and nothing when m <= 0 |
| `ListHelpers.ReorderedTransposes` | scripts/PManalysis.py:150-156 | on m*k items the reordering is a transposition: item j*m+a moves to position a*k+j |
| `ListHelpers.PairwiseGroupment` | scripts/PManalysis.py:159-165 | appends every pair (xs[a], xs[i]) with a < i, in lexicographic order of (a, i) |
| `ListHelpers.PairsCount` | scripts/PManalysis.py:159-165 | row a holds n-1-a pairs, n(n-1)/2 pairs in all |
| `ListHelpers.PairsByRow` | scripts/PManalysis.py:660-665 | cutting the pairs at the running sums of n-1, n-2, .., 1 gives row a = the pairs of item a with the items after it |
| `Grouping.Zip4` | scripts/PManalysis.py:730 | one (clone, source, condition, well) tuple per position, cut to the shortest header row |
| `Grouping.ReplicateRanges` | scripts/PManalysis.py:741-747 | range k is (blocks[k]+1, blocks[k+1]+1), one per consecutive pair of offsets |
| `Grouping.ReplicateColumnRanges` | scripts/PManalysis.py:730-747 | the distinct groups in first-appearance order, each with a half-open META column range as wide as its count; ranges start at column 1, abut and end after the last column |
| `Grouping.GroupRanges` | scripts/PManalysis.py:732-747 | on any list of tuples: the distinct tuples in first-appearance order, each with a half-open range as wide as its multiplicity, ranges from column 1 abutting up to len+1 |
| `Grouping.GroupOffsets` | scripts/PManalysis.py:736-739 | the running sums of the group counts step by each group's count (at least 1) and end at the number of columns |
| `Grouping.SumCounts` | scripts/PManalysis.py:736-739 | the counts of distinct groups covering a list add up to its length |
| `Grouping.ReorderParameters` | scripts/PManalysis.py:822-827 | asymptotes and growth rates are reordered by the same stride walk |
| `Grouping.StrideWalk` | scripts/PManalysis.py:825-827 | one pass of the inner loop appends the stride `xs[a::m]` of both lists |
| `Grouping.OrderByClones` | scripts/PManalysis.py:815-833 | reorder then cut per clone; on a full condition-major table list k is clone k's stride, numConditions long |
| `Grouping.ByCloneIsStrides` | scripts/PManalysis.py:828-833 | cutting the reordered table at multiples of numConditions gives back the strides |
| `Grouping.StridesCell` | scripts/PManalysis.py:815-833 | clone k's entry for condition c is the condition-major entry c*numClones+k |
| `ExperimentUnit.ReplicateData` | scripts/PManalysis.py:246-254 | data[rep] is the replicate's column read from META row 5 on |
| `ExperimentUnit.AsymptoteScan` | scripts/PManalysis.py:266-274 | the loop ends in the state of the scan function AsymScan |
| `ExperimentUnit.AsymScanPeak` | scripts/PManalysis.py:266-274 | asym is the largest window mean (or 0), at the earliest window reaching it; asymPos is 0 or in [2, n] |
| `ExperimentUnit.AsymScanNoPeak` | scripts/PManalysis.py:266-274 | asymPos stays 0 exactly when no window mean is positive |
| `ExperimentUnit.AsymPosInBounds` | scripts/PManalysis.py:276-284 | asymPos is 0 or has asymPos+1 in bounds, so the IndexError branch is unreachable |
| `ExperimentUnit.LinearityTest` | scripts/PManalysis.py:275-294 | linearFlag holds exactly when asymPos > 3 and every rate from index 3 stays within 30% of the target; it is false when asymPos <= 3 |
| `ExperimentUnit.Record` | scripts/PManalysis.py:299-313 | appends the label to its category's list and leaves the other three unchanged |
| `ExperimentUnit.CategoryCases` | scripts/PManalysis.py:296-313 | a replicate joins filterList exactly when it is a misfit or its 1-hour reading is at least its 24-hour reading + 0.03; a replicate classed linear has its asymptote past position 3 |
| `ExperimentUnit.Filter` | scripts/PManalysis.py:244-313 | filterList gains Flagged and rawTypes becomes Recorded, replicate by replicate |
| `ExperimentUnit.FilterReplicate` | scripts/PManalysis.py:256-313 | one replicate adds its 0-based index to filterList iff it is Misfits or NoGrowth, and its label to its category's list |
| `ExperimentUnit.FlaggedMembers` | scripts/PManalysis.py:298-305 | filterList gains exactly the 0-based indexes of the Misfits and NoGrowth replicates |
| `ExperimentUnit.FlaggedIncreasing` | scripts/PManalysis.py:298-305 | the indexes are appended in increasing order |
| `ExperimentUnit.RecordedLists` | scripts/PManalysis.py:296-313 | each rawTypes list gains the labels of exactly its category's replicates, in column order |
| `ExperimentUnit.LabelsPartition` | scripts/PManalysis.py:296-313 | every replicate lands in exactly one of the four lists |
| `ExperimentUnit.RepMedian` | scripts/PManalysis.py:327-345 | appends one curve: per data row, the median of the unfiltered columns of [x, y) or None, cut to len(META)-4 values |
| `ExperimentUnit.SurvivorsEmpty` | scripts/PManalysis.py:333-340 | a row has no surviving reading iff every column of [x, y) is in filterList |
| `ExperimentUnit.MedianCurveShape` | scripts/PManalysis.py:327-345 | one value per data row; a value is None iff every column is filtered, so a curve is all None or free of None |
| `ExperimentUnit.FilteredReplicateStillCounted` | scripts/PManalysis.py:300 | a replicate the filter removes is still read by rep_median, because filterList holds 0-based indexes and rep_median tests 1-based columns |
| `ExperimentUnit.MedianOfAgreeingReplicates` | scripts/PManalysis.py:333-338 | surviving replicates that agree give their common reading as the median |
| `ExperimentUnit.ThreeBlocks` | scripts/PManalysis.py:365-369 | one block per reading, block k being `averageA[3k:3k+3]` |
| `ExperimentUnit.Asymptote` | scripts/PManalysis.py:363-374 | appends the largest of the block means sum(block)/3.0 over the non-overlapping blocks, short and empty ones included |
| `ExperimentUnit.AsymptoteBounds` | scripts/PManalysis.py:363-374 | the asymptote bounds every block mean, is >= 0 with two or more readings, and stays in [0, hi] for readings in [0, hi] |
| `ExperimentUnit.P2` | scripts/PManalysis.py:376-380 | appends the second reading of the curve |
| `ExperimentUnit.MaxGrowthRate` | scripts/PManalysis.py:381-404 | appends the second of the rates sorted descending: at most one rate lies above it and two reach it |
| `Stats.SecondLargestUnique` | scripts/PManalysis.py:403-404 | those conditions determine the value uniquely |
| `Stats.MedianBounds` | scripts/PManalysis.py:338 | the median lies between any lower and upper bound of the values |
| `LogisticFit.PointBetween` | scripts/PManalysis.py:427 | each predicted point lies strictly between p2 and the asymptote, or equals both when they coincide |
| `LogisticFit.DeviationOfGaps` | scripts/PManalysis.py:428-431 | the residual equals sum of abs(a_i - m_i) divided by 2N |
| `LogisticFit.DeviationZero` | scripts/PManalysis.py:428-431 | the residual is >= 0, and 0 iff the model equals the data point for point |
| `LogisticFit.Model` | scripts/PManalysis.py:420-433 | appends the predicted curve and the one-element list of its residual |
| `LogisticFit.FirstArgMin` | scripts/PManalysis.py:456-457 | the first index holding the minimum: no smaller value anywhere, no equal value before it |
| `LogisticFit.LagPhaseSelection` | scripts/PManalysis.py:448-459 | appends the global time_vector entry at the first probe whose residual is smallest |
| `LogisticFit.ExactFitSelected` | scripts/PManalysis.py:448-459 | when some probe reproduces the data, the chosen residual is 0 |
| `Scoring.Score` | scripts/PManalysis.py:486-505 | every ratio scores within -4..4 |
| `Scoring.ScoreByThresholds` | scripts/PManalysis.py:486-505 | the score is 4 minus the number of the strict thresholds 2 .. 0.5 that the ratio exceeds |
| `Scoring.CountBelowDescending` | scripts/PManalysis.py:486-505 | in a descending threshold list, k thresholds reaching the value leave exactly len - k below it |
| `Scoring.ScoreAntitone` | scripts/PManalysis.py:486-513 | the score never increases with the ratio; ratio 2 scores -3 and ratio 1 scores 0, labelled 'equal' |
| `Scoring.Scores` | scripts/PManalysis.py:486-505 | appends one score per ratio, in order |
| `Scoring.PredictedPerformance` | scripts/PManalysis.py:506-513 | appends the label of each score, none for scores outside -4..4 |
| `Scoring.RatioLabels` | scripts/PManalysis.py:486-513 | one label per ratio: 'worst' above 1.5, 'equal' in (0.75, 1.5], 'better' at 0.75 and below |
| `Scoring.Weighted` | scripts/PManalysis.py:554-564 | the weighted ladder never gives class E |
| `Scoring.GradesMonotone` | scripts/PManalysis.py:554-577 | a larger mean never gets a worse class on either ladder; A exactly from 0.75, B just below |
| `Scoring.Classification` | scripts/PManalysis.py:554-564 | appends one weighted class per mean to the module-level list; the parameter is not used |
| `Scoring.ClassificationOtherMethod` | scripts/PManalysis.py:566-577 | appends one unweighted five-level class per mean |
| `Scoring.FlatRatios` | scripts/PManalysis.py:527-533 | the reciprocals 1/(y + A), or 1/(y + A*Um) under newHMFlag, clone after clone |
| `Scoring.FlatReciprocals` | scripts/PManalysis.py:542-545 | the reciprocals 1/y, clone after clone |
| `Scoring.AppendHarmonicMeans` | scripts/PManalysis.py:539-540 | appends len/sum for each piece |
| `Scoring.HarmonicMean` | scripts/PManalysis.py:524-540 | appends, per piece of len(models[0]) reciprocals, len/sum |
| `Scoring.HarmonicMeanOtherMethod` | scripts/PManalysis.py:541-552 | the same without any shift |
| `Scoring.RectangularHarmonic` | scripts/PManalysis.py:534-540 | with equal-length curves, piece k is curve k's reciprocals and its mean is curve k's harmonic growth level |
| `Stats.HarmonicBounds` | scripts/PManalysis.py:534-540 | shifted values in [lo, hi] with lo > 0 give a harmonic level in [lo, hi] |
| `Clustering.DiceByDistance` | scripts/PManalysis.py:607-645 | for classes A to D the score depends only on letter distance (0 gives 2, 1 gives 1, 2 gives 0.5, 3 gives 0) and is symmetric |
| `Clustering.DiceRange` | scripts/PManalysis.py:607-647 | every score the table gives lies in [0, 2] |
| `Clustering.DiceScores` | scripts/PManalysis.py:601-647 | the flat scores, pair after pair, skipping the cells the table leaves empty |
| `Clustering.SimilarityIndexes` | scripts/PManalysis.py:650-659 | pieces of `conditions` scores, each summed over 2 x conditions |
| `Clustering.SumEach` | scripts/PManalysis.py:657-659 | one value per piece, sum(piece)/c |
| `Clustering.CountDown` | scripts/PManalysis.py:660-662 | the row lengths n-1, n-2, .., 1 |
| `Clustering.SimilarityMatrix` | scripts/PManalysis.py:593-665 | appends the clone row/column labels, and the indexes cut into rows of n-1, n-2, .., 1 |
| `Clustering.SimilarityInUnitInterval` | scripts/PManalysis.py:650-659 | every similarity index lies in [0, 1] |
| `Clustering.DiceRowsRange` | scripts/PManalysis.py:601-647 | all flat scores lie in [0, 2] |
| `Clustering.PairSimilarityRange` | scripts/PManalysis.py:650-659 | the index of two clones lies in [0, 1] |
| `Clustering.PairSimilaritySymmetric` | scripts/PManalysis.py:601-659 | for A to D vectors the index is symmetric |
| `Clustering.PairSimilaritySelf` | scripts/PManalysis.py:601-659 | identical A to D vectors have index 1 |
| `Clustering.AlignedSimilarities` | scripts/PManalysis.py:595-659 | for aligned A to D vectors the indexes are those of the pairs, in pair order |
| `Clustering.AlignedMatrix` | scripts/PManalysis.py:593-665 | row a of the matrix holds the indexes of clone a against the clones after it |
| `PMDataModel.RepNumberRun` | scripts/py/PMData.py:79-85 | a named column's replicate number is 1 plus the number of immediately preceding columns with the same name |
| `PMDataModel.RepNumberEmptyName` | scripts/py/PMData.py:79-83 | a leading run of empty names is numbered from 2 |
| `PMDataModel.ReplicatesLastRun` | scripts/py/PMData.py:81-85 | numReplicates holds every clone name, with the replicate number of its last column |
| `PMDataModel.LastWinsLookup` | scripts/py/PMData.py:84 | a dictionary written key by key holds the written keys, each with its last value |
| `PMDataModel.DistinctNames` | scripts/py/PMData.py:57-59 | numClones is the number of distinct clone names |
| `PMDataModel.WellMapLookup` | scripts/py/PMData.py:96-98 | each well label maps to the (source, condition) of its last column; no other label appears |
| `PMDataModel.GatheredStep` | scripts/py/PMData.py:69-70 | one more column adds its condition to its source |
| `PMDataModel.GatheredPairs` | scripts/py/PMData.py:64-76 | from empty condition sets, the gathered pairs are the distinct (source, condition) pairs of the columns |
| `PMDataModel.FlattenRemove` | scripts/py/PMData.py:74-76 | each source counts exactly its own condition set |
| `PMDataModel.ReadingsOfDistinctColumns` | scripts/py/PMData.py:100-114 | with distinct keys, each column's array gains its own reading and nothing else |
| `PMDataModel.HeaderKeysPresent` | scripts/py/PMData.py:61-94 | after the source and condition header lines, every column of an OD line has its (clone, rep, source, condition) array in dataHash, so parseOD finds each key |
| `PMDataModel.AppendReadings` | scripts/py/PMData.py:103-114 | every key of the table keeps its place and gains, in column order, the readings of the columns that map to it |
| `PMDataModel.PMData.constructor` | scripts/py/PMData.py:10-25 | every field starts empty or 0 |
| `PMDataModel.PMData.ParseClones` | scripts/py/PMData.py:56-59 | clonesNU and the set of clones come from the line; numClones is the distinct count; nothing else changes |
| `PMDataModel.PMData.ParseSources` | scripts/py/PMData.py:61-64 | sourcesNU from the line; every source maps to no conditions; nothing else changes |
| `PMDataModel.PMData.ParseConditions` | scripts/py/PMData.py:66-94 | conditions gathered per source, numConditions grows by the distinct (source, condition) pairs, numReplicates records each clone's last run, dataHash gets empty arrays per (clone, rep, source, condition) |
| `PMDataModel.PMData.GatherConditions` | scripts/py/PMData.py:69-70 | conditions becomes Gathered |
| `PMDataModel.PMData.CountConditions` | scripts/py/PMData.py:74-76 | numConditions grows by the sum of the set sizes |
| `PMDataModel.PMData.InitialiseTable` | scripts/py/PMData.py:79-94 | numReplicates and dataHash as in ParseConditions |
| `PMDataModel.PMData.TableColumn` | scripts/py/PMData.py:80-94 | one column records its clone's replicate number and gives every source of its (clone, rep) empty condition arrays |
| `PMDataModel.PMData.RebuildColumn` | scripts/py/PMData.py:92-94 | one column rebuilds the condition dictionaries of every source |
| `PMDataModel.PMData.ParseWells` | scripts/py/PMData.py:96-98 | wells becomes WellMap of the line |
| `PMDataModel.PMData.ParseOD` | scripts/py/PMData.py:100-114 | appends exactly one time (the first field) and each column's OD to its own array; no key added, nothing else changes |
| `PMDataModel.PMData.GetCloneData` | scripts/py/PMData.py:116-122 | numReplicates[clone] rows, row k being replicate k+1's array |
| `GrowthCurveModel.MedianOfAgreeingReplicates` | scripts/py/GrowthCurve.py:15 | agreeing replicates give their common curve as the median |
| `GrowthCurveModel.PeakMeanIsMax` | scripts/py/GrowthCurve.py:22-30 | the result is -1 or a window mean, >= -1, and bounds every window mean for idx in [1, nReads-3) |
| `GrowthCurveModel.AsymptoteOfShortCurve` | scripts/py/GrowthCurve.py:22-30 | with no window the result is -1 |
| `GrowthCurveModel.GrowthCurve.CalcAsymptote` | scripts/py/GrowthCurve.py:22-30 | the loop returns the scan value Asymptote |
| `GrowthCurveModel.GrowthRatesOfLine` | scripts/py/GrowthCurve.py:32-39 | a log curve rising at a constant rate gives that rate for every window |
| `GrowthCurveModel.CollectRates` | scripts/py/GrowthCurve.py:34-39 | the loop yields the rate of each window idx..idx+3 for idx in [1, nReads-4) |
| `GrowthCurveModel.GrowthCurve.CalcMGR` | scripts/py/GrowthCurve.py:32-43 | the rate is the second of the sorted rates (at most one above it, two reach it); the time is time[k+2] for an index k holding it |
| `Stats.HarmonicOfConstant` | scripts/py/GrowthCurve.py:52-55 | when every x + A equals the same c > 0, the growth level is c |
| `GrowthCurveModel.GrowthCurve.constructor` | scripts/py/GrowthCurve.py:13-20 | the fields hold the median curve, its asymptote, second-largest rate and time, and the harmonic growth level |

## Left out

- Command-line handling, `usage` and getopt (scripts/PManalysis.py:51-88), and
  all of `scripts/py/pmanalysis.py`: argument glue with no logic of its own.
- File and sheet I/O: the TSV reader, `PMData.beginParse`, the `float()`
  conversions, the report writers, `list_to_col` and `list_to_row`. The model
  takes header lines as split string sequences and OD lines as reals.
- The heatmap plot.
- Transcendental and IEEE numerics, taken as given inputs instead: log10 (or ln)
  of the curves for the growth rates, the logistic exponential, the log10/pow
  ratio of `ExperimentGroup.ratio`, the square root of `Pearson`, numpy's
  `std` in `rep_stdev`, and the float `arange(0, t_end, 0.4)` probe vector.
  `ExperimentGroup.ratio`, `Pearson.pearson_correlation`, `rep_stdev` and
  `rep_average` are therefore not modelled. `Experiment.time_vector` is not
  modelled either; its probe vector is an input of the lag search.
- The `Experiment` header accessors (`different_clones` and the like) only
  call `unique_list` on a header row, and `unique_list` is modelled.
- `GrowthCurve.calcLag`: it calls the `Models` module, which is not part of
  this model. Its logistic curve and lag are constructor arguments.
- NaN propagation: a median with no surviving replicate is `None`, not IEEE NaN.
- The stderr / `sys.exit` branch of `filter`: it is unreachable
  (`ExperimentUnit.AsymPosInBounds`).
- The IndexError that `filter` raises on a non-misfit replicate with fewer than
  48 readings is excluded by a precondition (`ExperimentUnit.Filterable`). So is
  the IndexError of `max_growth_rate` with fewer than two windows.
- GrowthCurveModel.GrowthCurve.CalcMGR: numpy's argsort tie order is not
  modelled. The time is that of some index holding the selected rate (the
  model takes the first), not necessarily the one argsort would return.
- Division by zero. The script does `from pylab import *`, so its arithmetic
  is on numpy floats, and a zero divisor gives inf or NaN with a warning
  instead of an exception. The model has no inf or NaN, and the members below
  require the divisor to be non-zero. None of them models a domain error for
  a degenerate asymptote.
- LogisticFit.Model: requires a non-zero asymptote. Line 427 divides
  max_growth_rate by it, which gives inf or NaN for an all-zero well.
- LogisticFit.LagPhaseSelection: requires a non-zero asymptote, for the same
  division at line 427 in each probe.
- ExperimentUnit.MaxGrowthRate: requires distinct end times for each window.
  Line 401 gives inf or NaN when they are equal.
- Scoring.HarmonicMean: requires every shifted value 1/(y + A) or
  1/(y + A*Um) to have a non-zero divisor (lines 531 and 533). It also requires
  every piece to have a non-zero sum for len/sum (line 540). The source gives
  inf or NaN at a zero.
- Scoring.HarmonicMeanOtherMethod: requires every 1/y to have a non-zero y
  (line 545) and every piece a non-zero sum (line 552).
- GrowthCurveModel.GrowthCurve.CalcMGR: requires a non-zero time span for each
  window (`RatesDefined`). Lines 37-38 give inf or NaN on a zero span.
- GrowthCurveModel.GrowthCurve.constructor: requires `RatesDefined` for
  calcMGR. It also requires `HarmonicDefined` for calcGrowth, whose
  `1/(x + A)` and `len/sum` at lines 54-55 give inf or NaN on a zero.
- GrowthCurveModel.GrowthCurve.CalcGrowth: requires `HarmonicDefined`, for the
  same reason.
- Exceptions the source raises are excluded by preconditions instead of
  modelled as an error result:
- ListHelpers.IndexesFromIterationBlock: requires a non-empty index list
  whenever the block is non-empty. Line 126 raises IndexError on `[]`.
- ExperimentUnit.Asymptote: requires at least one reading. Line 374 raises
  IndexError on `sorted([])[0]`.
- ExperimentUnit.P2: requires at least two readings. Line 380 raises IndexError.
- LogisticFit.Model: requires `0 < len(average_a) <= len(experiment_time)`.
  Line 431 raises ZeroDivisionError on an empty curve. Line 430 raises
  IndexError when the curve is longer than the time list.
- LogisticFit.LagPhaseSelection: requires a non-empty probe vector no longer
  than the module-level time_vector. Line 457 raises ValueError on `min([])`,
  and line 459 raises IndexError. Each probe also carries the curve-length
  precondition of LogisticFit.Model.
- Scoring.HarmonicMean: requires at least one clone (`Summable`). Line 534
  raises IndexError on `logistic_model_by_clones[0]`.
- Scoring.HarmonicMeanOtherMethod: requires at least one clone. Line 546
  raises the same IndexError.
- Clustering.SimilarityMatrix: requires at least one growth condition, against
  the ZeroDivisionError at line 650. It also requires no class vector shorter
  than the first, against the IndexError at line 606.
- PMDataModel.PMData.ParseConditions: requires a source for every condition
  column, each already in `conditions`. Line 69 raises IndexError or KeyError
  otherwise.
- PMDataModel.PMData.ParseOD: requires a clone, a source and a condition for
  every reading, with its key present. Lines 106-113 raise IndexError or
  KeyError otherwise. `PMDataModel.HeaderKeysPresent` shows the header parse
  provides the keys.
- PMDataModel.PMData.GetCloneData: requires the clone in numReplicates. It
  also requires arrays for replicates 1 to numReplicates[clone], of equal
  length. Lines 117-121 otherwise raise KeyError, or ValueError from
  concatenate. The source does reach this KeyError: a leading run of empty
  clone names gets `numReplicates[""] == 2` and has no replicate 1
  (`PMDataModel.RepNumberEmptyName`).
- GrowthCurveModel.GrowthCurve.CalcMGR: requires at least 7 readings.
  `argsort(grs)[-2]` at line 40 raises IndexError with fewer than two rates.
- Machine integers and floats: integers are unbounded and reals exact, so
  floating-point rounding at the thresholds is not captured.
