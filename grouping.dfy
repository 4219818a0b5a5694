/** The top-level loops of scripts/PManalysis.py that find the replicate
    column ranges of each experimental group (lines 730-747) and that move
    per-unit results from condition-major to clone-major order (lines 815-833). */
module Grouping {
  import opened Seqs
  import opened ListHelpers

  /** One input column's header: clone, main source, growth condition, well. */
  type Column = (string, string, string, string)

  /** Python 2's `zip` of four rows: one tuple per position, cut to the shortest row. */
  function Zip4(clones: seq<string>, sources: seq<string>, conditions: seq<string>, wells: seq<string>)
    : (r: seq<Column>)
    ensures |r| <= |clones| && |r| <= |sources| && |r| <= |conditions| && |r| <= |wells|
    ensures |r| == |clones| || |r| == |sources| || |r| == |conditions| || |r| == |wells|
    ensures forall i :: 0 <= i < |r| ==> r[i] == (clones[i], sources[i], conditions[i], wells[i])
  {
    var n := if |clones| <= |sources| && |clones| <= |conditions| && |clones| <= |wells| then |clones|
      else if |sources| <= |conditions| && |sources| <= |wells| then |sources|
      else if |conditions| <= |wells| then |conditions|
      else |wells|;
    seq(n, i requires 0 <= i < n => (clones[i], sources[i], conditions[i], wells[i]))
  }

  /** How often each of `groups` occurs in `all`. */
  function CountsOf<T(==)>(groups: seq<T>, all: seq<T>): (r: seq<int>)
    ensures |r| == |groups|
  {
    seq(|groups|, k requires 0 <= k < |groups| => Count(all, groups[k]))
  }

  /** The while loop over consecutive offsets: the 1-based column range of each block. */
  method ReplicateRanges(blocks: seq<int>) returns (ranges: seq<(int, int)>)
    ensures |ranges| == if |blocks| == 0 then 0 else |blocks| - 1
    ensures forall k :: 0 <= k < |ranges| ==> ranges[k] == (blocks[k] + 1, blocks[k + 1] + 1)
  {
    ranges := [];
    var a := 0;
    var b := -1;
    while a < |blocks| - 1
      invariant b == a - 1 && 0 <= a
      invariant a <= |blocks| - 1 || a == 0
      invariant |ranges| == a
      invariant forall k :: 0 <= k < a ==> ranges[k] == (blocks[k] + 1, blocks[k + 1] + 1)
    {
      a := a + 1;
      b := b + 1;
      ranges := ranges + [(blocks[b] + 1, blocks[a] + 1)];
    }
  }

  /** Lines 730-747: the distinct experimental groups in order of first appearance,
      and for each the half-open range of META columns holding its replicates.
      The ranges start at column 1 (column 0 holds the time), follow one another
      without gap or overlap, end after the last data column, and are as wide
      as the group has columns. */
  method ReplicateColumnRanges(cloneRow: seq<string>, sourceRow: seq<string>,
                               conditionRow: seq<string>, wellRow: seq<string>)
    returns (groups: seq<Column>, ranges: seq<(int, int)>)
    ensures groups == Unique([], Zip4(cloneRow, sourceRow, conditionRow, wellRow))
    ensures Distinct(groups)
    ensures forall g :: g in groups <==> g in Zip4(cloneRow, sourceRow, conditionRow, wellRow)
    ensures |ranges| == |groups|
    ensures forall k :: 0 <= k < |groups| ==>
      ranges[k].1 - ranges[k].0 == multiset(Zip4(cloneRow, sourceRow, conditionRow, wellRow))[groups[k]] >= 1
    ensures forall k :: 0 <= k < |groups| - 1 ==> ranges[k].1 == ranges[k + 1].0
    ensures |groups| > 0 ==>
      ranges[0].0 == 1 && ranges[|groups| - 1].1 == |Zip4(cloneRow, sourceRow, conditionRow, wellRow)| + 1
  {
    var all := Zip4(cloneRow, sourceRow, conditionRow, wellRow);
    groups, ranges := GroupRanges(all);
  }

  /** The body of lines 730-747 on the zipped header columns. */
  method GroupRanges<T(==)>(all: seq<T>) returns (groups: seq<T>, ranges: seq<(int, int)>)
    ensures groups == Unique([], all)
    ensures Distinct(groups)
    ensures forall g :: g in groups <==> g in all
    ensures |ranges| == |groups|
    ensures forall k :: 0 <= k < |groups| ==> ranges[k].1 - ranges[k].0 == multiset(all)[groups[k]] >= 1
    ensures forall k :: 0 <= k < |groups| - 1 ==> ranges[k].1 == ranges[k + 1].0
    ensures |groups| > 0 ==> ranges[0].0 == 1 && ranges[|groups| - 1].1 == |all| + 1
  {
    groups := UniqueList(all, []);
    var frequency := FrequencyOfElements(groups, all, []);
    var blocks := IndexesFromIterationBlock(frequency, [0]);
    ranges := ReplicateRanges(blocks);
    assert Distinct<T>([]);
    FrequencyIsCount(groups, all, frequency);
    RangesOfOffsets(all, groups, blocks, ranges);
  }

  lemma FrequencyIsCount<T>(groups: seq<T>, all: seq<T>, frequency: seq<int>)
    requires |frequency| == |groups|
    requires forall i :: 0 <= i < |groups| ==> frequency[i] == multiset(all)[groups[i]]
    ensures frequency == CountsOf(groups, all)
  {
    forall k | 0 <= k < |groups| ensures frequency[k] == Count(all, groups[k]) {
      CountIsMultiplicity(all, groups[k]);
    }
  }

  /** The ranges of consecutive group offsets, shifted past the time column. */
  lemma RangesOfOffsets<T>(all: seq<T>, groups: seq<T>, blocks: seq<int>, ranges: seq<(int, int)>)
    requires Distinct(groups) && (forall g :: g in groups <==> g in all)
    requires blocks == PrefixSums(0, CountsOf(groups, all))
    requires |ranges| == |blocks| - 1
    requires forall k :: 0 <= k < |ranges| ==> ranges[k] == (blocks[k] + 1, blocks[k + 1] + 1)
    ensures |ranges| == |groups|
    ensures forall k :: 0 <= k < |groups| ==> ranges[k].1 - ranges[k].0 == multiset(all)[groups[k]] >= 1
    ensures forall k :: 0 <= k < |groups| - 1 ==> ranges[k].1 == ranges[k + 1].0
    ensures |groups| > 0 ==> ranges[0].0 == 1 && ranges[|groups| - 1].1 == |all| + 1
  {
    GroupOffsets(all, groups, blocks);
    forall k | 0 <= k < |groups| ensures ranges[k].1 - ranges[k].0 == multiset(all)[groups[k]] >= 1 {
      assert ranges[k] == (blocks[k] + 1, blocks[k + 1] + 1);
    }
    forall k | 0 <= k < |groups| - 1 ensures ranges[k].1 == ranges[k + 1].0 {
      assert ranges[k] == (blocks[k] + 1, blocks[k + 1] + 1);
      assert ranges[k + 1] == (blocks[k + 1] + 1, blocks[k + 2] + 1);
    }
    if |groups| > 0 {
      assert ranges[0] == (blocks[0] + 1, blocks[1] + 1);
      assert ranges[|groups| - 1] == (blocks[|groups| - 1] + 1, blocks[|groups|] + 1);
    }
  }

  /** The running sums of the group counts of a list: each step is the count of
      its group, at least 1, and the last is the length of the list. */
  lemma GroupOffsets<T>(all: seq<T>, groups: seq<T>, blocks: seq<int>)
    requires Distinct(groups) && (forall g :: g in groups <==> g in all)
    requires blocks == PrefixSums(0, CountsOf(groups, all))
    ensures |blocks| == |groups| + 1
    ensures blocks[0] == 0 && blocks[|groups|] == |all|
    ensures forall k :: 0 <= k < |groups| ==> blocks[k + 1] - blocks[k] == multiset(all)[groups[k]] >= 1
  {
    var frequency := CountsOf(groups, all);
    forall k | 0 <= k < |groups| ensures blocks[k + 1] - blocks[k] == multiset(all)[groups[k]] >= 1 {
      assert groups[k] in groups;
      CountIsMultiplicity(all, groups[k]);
      SumIntTake(frequency, k);
    }
    SumCounts(groups, all);
    assert frequency[..|frequency|] == frequency;
  }

  lemma {:induction false} SumCountsSnoc<T>(groups: seq<T>, all: seq<T>, x: T)
    ensures SumInt(CountsOf(groups, all + [x])) == SumInt(CountsOf(groups, all)) + Count(groups, x)
  {
    var n := |groups|;
    if n > 0 {
      SumCountsSnoc(groups[..n - 1], all, x);
      assert CountsOf(groups, all + [x])[..n - 1] == CountsOf(groups[..n - 1], all + [x]);
      assert CountsOf(groups, all)[..n - 1] == CountsOf(groups[..n - 1], all);
      assert (all + [x])[..|all|] == all;
    }
  }

  lemma {:induction false} DistinctCountOne<T>(s: seq<T>, x: T)
    requires Distinct(s) && x in s
    ensures Count(s, x) == 1
  {
    var n := |s|;
    if s[n - 1] == x {
      assert x !in s[..n - 1];
      CountAbsent(s[..n - 1], x);
    } else {
      DistinctCountOne(s[..n - 1], x);
    }
  }

  lemma {:induction false} CountAbsent<T>(s: seq<T>, x: T)
    requires x !in s
    ensures Count(s, x) == 0
  {
    if |s| > 0 {
      CountAbsent(s[..|s| - 1], x);
    }
  }

  /** The occurrence counts of distinct groups covering a list add up to its length. */
  lemma {:induction false} SumCounts<T>(groups: seq<T>, all: seq<T>)
    requires Distinct(groups)
    requires forall x :: x in all ==> x in groups
    ensures SumInt(CountsOf(groups, all)) == |all|
  {
    var m := |all|;
    if m == 0 {
      assert CountsOf(groups, all) == Repeat(0, |groups|);
      SumIntRepeat(0, |groups|);
    } else {
      var init := all[..m - 1];
      assert all == init + [all[m - 1]];
      SumCounts(groups, init);
      SumCountsSnoc(groups, init, all[m - 1]);
      DistinctCountOne(groups, all[m - 1]);
    }
  }

  // ---------------------------------------------------------------------
  // Lines 815-833: condition-major results regrouped per clone.

  /** The loop at lines 824-828: one stride walk over the asymptotes, taking the
      maximum growth rate at the same positions. */
  method ReorderParameters(asymptotes: seq<real>, growthRates: seq<real>, multiple: int)
    returns (asymptotesOrdered: seq<real>, growthRatesOrdered: seq<real>)
    requires |growthRates| >= |asymptotes|
    ensures asymptotesOrdered == Reordered(asymptotes, multiple)
    ensures growthRatesOrdered == Reordered(growthRates[..|asymptotes|], multiple)
  {
    asymptotesOrdered := [];
    growthRatesOrdered := [];
    var rates := growthRates[..|asymptotes|];
    ghost var strides := if multiple > 0 then Strides(asymptotes, multiple) else [];
    ghost var rateStrides := if multiple > 0 then Strides(rates, multiple) else [];
    var a := -1;
    while a < multiple - 1
      invariant -1 <= a && (multiple > 0 ==> a <= multiple - 1)
      invariant multiple <= 0 ==> a == -1 && asymptotesOrdered == [] && growthRatesOrdered == []
      invariant multiple > 0 ==> asymptotesOrdered == Concat(strides[..a + 1])
      invariant multiple > 0 ==> growthRatesOrdered == Concat(rateStrides[..a + 1])
    {
      a := a + 1;
      asymptotesOrdered, growthRatesOrdered := StrideWalk(asymptotes, rates, a, multiple, asymptotesOrdered, growthRatesOrdered);
      ConcatTake(strides, a);
      ConcatTake(rateStrides, a);
    }
    if multiple > 0 {
      assert strides[..multiple] == strides;
      assert rateStrides[..multiple] == rateStrides;
    }
  }

  /** The inner loop at lines 825-827: from position a in steps of `multiple`,
      appending the asymptote and the growth rate found there. */
  method StrideWalk(asymptotes: seq<real>, rates: seq<real>, a: nat, multiple: nat,
                    asymptotesOrdered: seq<real>, growthRatesOrdered: seq<real>)
    returns (asymOut: seq<real>, ratesOut: seq<real>)
    requires multiple > 0 && |rates| == |asymptotes|
    ensures asymOut == asymptotesOrdered + Stride(asymptotes, a, multiple)
    ensures ratesOut == growthRatesOrdered + Stride(rates, a, multiple)
  {
    asymOut, ratesOut := asymptotesOrdered, growthRatesOrdered;
    var i: nat := a;
    while i < |asymptotes|
      invariant asymOut + Stride(asymptotes, i, multiple) == asymptotesOrdered + Stride(asymptotes, a, multiple)
      invariant ratesOut + Stride(rates, i, multiple) == growthRatesOrdered + Stride(rates, a, multiple)
      decreases |asymptotes| - i
    {
      asymOut := asymOut + [asymptotes[i]];
      ratesOut := ratesOut + [rates[i]];
      i := i + multiple;
    }
    assert Stride(asymptotes, i, multiple) == [] && Stride(rates, i, multiple) == [];
    assert asymOut + [] == asymOut && ratesOut + [] == ratesOut;
  }

  /** Lines 815-821 and 829-833: reorder by clone, then cut into one list per clone
      of `numConditions` entries. On a full condition-major table, list k is the
      stride of clone k: its result under each condition in turn (`StridesCell`). */
  method OrderByClones<T>(results: seq<T>, numClones: nat, numConditions: nat)
    returns (byClone: seq<seq<T>>)
    ensures byClone == Slices(Reordered(results, numClones), PrefixSums(0, Repeat(numConditions, numClones)))
    ensures numClones > 0 && |results| == numClones * numConditions ==>
      byClone == Strides(results, numClones) &&
      forall k :: 0 <= k < numClones ==> |byClone[k]| == numConditions
  {
    var ordered := ReorderMultiples(results, numClones, []);
    var offsets := IndexesFromIterationBlock(Repeat(numConditions, numClones), [0]);
    byClone := SublistByIterationSet(ordered, offsets, []);
    assert ordered == Reordered(results, numClones);
    assert offsets == PrefixSums(0, Repeat(numConditions, numClones));
    assert byClone == Slices(ordered, offsets);
    if numClones > 0 && |results| == numClones * numConditions {
      ByCloneIsStrides(results, numClones, numConditions);
    }
  }

  lemma ByCloneIsStrides<T>(results: seq<T>, numClones: nat, numConditions: nat)
    requires numClones > 0 && |results| == numClones * numConditions
    ensures Slices(Reordered(results, numClones), PrefixSums(0, Repeat(numConditions, numClones)))
      == Strides(results, numClones)
    ensures forall k :: 0 <= k < numClones ==> |Strides(results, numClones)[k]| == numConditions
  {
    var strides := Strides(results, numClones);
    forall k | 0 <= k < numClones ensures |strides[k]| == numConditions {
      GridBounds(numClones, numConditions, k);
      StrideLength(results, k, numClones, numConditions);
    }
    assert Lengths(strides) == Repeat(numConditions, numClones);
    SlicesOfConcat(strides);
  }

  lemma StridesCell<T>(results: seq<T>, numClones: nat, numConditions: nat, k: nat, c: nat)
    requires |results| == numClones * numConditions
    requires k < numClones && c < numConditions
    ensures c * numClones + k < |results|
    ensures c < |Strides(results, numClones)[k]|
    ensures Strides(results, numClones)[k][c] == results[c * numClones + k]
  {
    CellBounds(numClones, numConditions, k, c);
    StrideAt(results, k, numClones, c);
  }
}
