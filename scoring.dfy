/** The threshold classifiers and the harmonic means of scripts/PManalysis.py:
    ExperimentGroup.scores and predicted_performance (lines 486-513) and
    Clone.harmonic_mean, harmonic_mean_other_method, classification and
    classification_other_method (lines 516-577). */
module Scoring {
  import opened Seqs
  import opened Stats
  import opened ListHelpers

  // ---------------------------------------------------------------------
  // scores and predicted_performance

  /** The score of a growth ratio: strict thresholds from 2 down to 0.5, from -4 to 4. */
  function Score(ratio: real): (s: int)
    ensures -4 <= s <= 4
  {
    if ratio > 2.0 then -4
    else if ratio > 1.75 then -3
    else if ratio > 1.5 then -2
    else if ratio > 1.25 then -1
    else if ratio > 0.875 then 0
    else if ratio > 0.75 then 1
    else if ratio > 0.625 then 2
    else if ratio > 0.5 then 3
    else 4
  }

  /** The eight thresholds of the score ladder. */
  const ScoreThresholds: seq<real> := [2.0, 1.75, 1.5, 1.25, 0.875, 0.75, 0.625, 0.5]

  /** How many values of `s` lie strictly below `v`. */
  function CountBelow(s: seq<real>, v: real): (n: nat)
    ensures n <= |s|
  {
    if |s| == 0 then 0 else CountBelow(s[..|s| - 1], v) + (if s[|s| - 1] < v then 1 else 0)
  }

  lemma {:induction false} CountBelowMonotone(s: seq<real>, v: real, w: real)
    requires v <= w
    ensures CountBelow(s, v) <= CountBelow(s, w)
  {
    if |s| > 0 {
      CountBelowMonotone(s[..|s| - 1], v, w);
    }
  }

  /** The score is 4 minus the number of thresholds the ratio exceeds. */
  lemma ScoreByThresholds(ratio: real)
    ensures Score(ratio) == 4 - CountBelow(ScoreThresholds, ratio)
  {
    CountBelowDescending(ScoreThresholds, ratio, Score(ratio) + 4);
  }

  /** In a descending list the values below v are those from the first one below v
      on, so k values reaching v leave |s| - k below it. */
  lemma {:induction false} CountBelowDescending(s: seq<real>, v: real, k: nat)
    requires forall i :: 0 < i < |s| ==> s[i] < s[i - 1]
    requires k <= |s|
    requires forall i :: 0 <= i < k ==> s[i] >= v
    requires forall i :: k <= i < |s| ==> s[i] < v
    ensures CountBelow(s, v) == |s| - k
  {
    if |s| > 0 {
      var n := |s| - 1;
      if k <= n {
        CountBelowDescending(s[..n], v, k);
      } else {
        CountBelowDescending(s[..n], v, n);
      }
    }
  }

  /** A larger ratio never gets a larger score; a ratio of 2 scores -3 and a ratio
      of 1 scores 0, which predicted_performance calls 'equal'. */
  lemma ScoreAntitone(r1: real, r2: real)
    requires r1 <= r2
    ensures Score(r2) <= Score(r1)
    ensures Score(2.0) == -3 && Score(1.0) == 0 && Performance(Score(1.0)) == Some("equal")
  {
    ScoreByThresholds(r1);
    ScoreByThresholds(r2);
    CountBelowMonotone(ScoreThresholds, r1, r2);
  }

  method Scores(ratio: seq<real>, scores: seq<int>) returns (extended: seq<int>)
    ensures |extended| == |scores| + |ratio| && extended[..|scores|] == scores
    ensures forall i :: 0 <= i < |ratio| ==> extended[|scores| + i] == Score(ratio[i])
  {
    extended := scores;
    for k := 0 to |ratio|
      invariant |extended| == |scores| + k && extended[..|scores|] == scores
      invariant forall i :: 0 <= i < k ==> extended[|scores| + i] == Score(ratio[i])
    {
      var i := ratio[k];
      var s: int;
      if i > 2.0 { s := -4; }
      else if i > 1.75 { s := -3; }
      else if i > 1.50 { s := -2; }
      else if i > 1.25 { s := -1; }
      else if i > 0.875 { s := 0; }
      else if i > 0.75 { s := 1; }
      else if i > 0.625 { s := 2; }
      else if i > 0.5 { s := 3; }
      else { s := 4; }
      extended := extended + [s];
    }
  }

  /** The label of a score; scores outside -4..4 get none. */
  function Performance(score: int): Option<string>
  {
    if score == -4 || score == -3 || score == -2 then Some("worst")
    else if score == -1 || score == 0 || score == 1 then Some("equal")
    else if score == 2 || score == 3 || score == 4 then Some("better")
    else None
  }

  /** The labels appended for a list of scores, in order. */
  function Labels(scores: seq<int>): seq<string>
  {
    if |scores| == 0 then []
    else
      var last := Performance(scores[|scores| - 1]);
      Labels(scores[..|scores| - 1]) + (if last.Some? then [last.value] else [])
  }

  method PredictedPerformance(scores: seq<int>, predictedPerformance: seq<string>) returns (extended: seq<string>)
    ensures extended == predictedPerformance + Labels(scores)
  {
    extended := predictedPerformance;
    for k := 0 to |scores|
      invariant extended == predictedPerformance + Labels(scores[..k])
    {
      var i := scores[k];
      assert scores[..k + 1][..k] == scores[..k];
      if i == -4 || i == -3 || i == -2 {
        extended := extended + ["worst"];
      } else if i == -1 || i == 0 || i == 1 {
        extended := extended + ["equal"];
      } else if i == 2 || i == 3 || i == 4 {
        extended := extended + ["better"];
      }
    }
    assert scores[..|scores|] == scores;
  }

  /** The scores of any ratios are all labelled, one label per ratio: 'worst' above
      a ratio of 1.5, 'better' at 0.75 and below, 'equal' in between. */
  lemma {:induction false} RatioLabels(ratio: seq<real>)
    ensures |Labels(seq(|ratio|, i requires 0 <= i < |ratio| => Score(ratio[i])))| == |ratio|
    ensures forall i :: 0 <= i < |ratio| ==>
      Labels(seq(|ratio|, i requires 0 <= i < |ratio| => Score(ratio[i])))[i]
        == RatioName(ratio[i])
  {
    var scores := seq(|ratio|, i requires 0 <= i < |ratio| => Score(ratio[i]));
    if |ratio| > 0 {
      var n := |ratio| - 1;
      RatioLabels(ratio[..n]);
      assert scores[..n] == seq(n, i requires 0 <= i < n => Score(ratio[..n][i]));
      RatioLabel(ratio[n]);
      assert Labels(scores) == Labels(scores[..n]) + [RatioName(ratio[n])];
    }
  }

  function RatioName(r: real): string
  {
    if r > 1.5 then "worst" else if r > 0.75 then "equal" else "better"
  }

  /** Every ratio's score has a label, the one its band gives. */
  lemma RatioLabel(r: real)
    ensures Performance(Score(r)) == Some(RatioName(r))
  {
  }

  // ---------------------------------------------------------------------
  // classification and classification_other_method

  datatype Grade = A | B | C | D | E
  {
    function Name(): string
    {
      match this
      case A => "Class A"
      case B => "Class B"
      case C => "Class C"
      case D => "Class D"
      case E => "Class E"
    }

    /** 0 for the best class, 4 for the worst. */
    function Rank(): nat
    {
      match this
      case A => 0
      case B => 1
      case C => 2
      case D => 3
      case E => 4
    }
  }

  /** The class of a weighted harmonic mean. */
  function Weighted(h: real): (g: Grade)
    ensures g != E
  {
    if h >= 0.75 then A
    else if h > 0.5 then B
    else if h > 0.32 then C
    else D
  }

  /** The class of an unweighted harmonic mean. */
  function Unweighted(h: real): Grade
  {
    if h >= 0.333 then A
    else if h > 0.256 then B
    else if h > 0.180 then C
    else if h > 0.105 then D
    else E
  }

  /** A larger harmonic mean never gets a worse class under either scale; the weighted
      scale gives A exactly from 0.75 on. */
  lemma GradesMonotone(h1: real, h2: real)
    requires h1 <= h2
    ensures Weighted(h2).Rank() <= Weighted(h1).Rank()
    ensures Unweighted(h2).Rank() <= Unweighted(h1).Rank()
    ensures Weighted(h1) == A <==> h1 >= 0.75
    ensures 0.5 < h1 < 0.75 ==> Weighted(h1) == B
  {
  }

  /** Appends to the module-level `classification`; the `classsification`
      parameter of the source is never touched. */
  method Classification(harmonicMean: seq<real>, classsification: seq<string>, classification: seq<string>)
    returns (classificationOut: seq<string>)
    ensures |classificationOut| == |classification| + |harmonicMean|
    ensures classificationOut[..|classification|] == classification
    ensures forall i :: 0 <= i < |harmonicMean| ==>
      classificationOut[|classification| + i] == Weighted(harmonicMean[i]).Name()
  {
    classificationOut := classification;
    for k := 0 to |harmonicMean|
      invariant |classificationOut| == |classification| + k
      invariant classificationOut[..|classification|] == classification
      invariant forall i :: 0 <= i < k ==> classificationOut[|classification| + i] == Weighted(harmonicMean[i]).Name()
    {
      var i := harmonicMean[k];
      if i >= 0.75 {
        classificationOut := classificationOut + ["Class A"];
      } else if i > 0.5 {
        classificationOut := classificationOut + ["Class B"];
      } else if i > 0.32 {
        classificationOut := classificationOut + ["Class C"];
      } else {
        classificationOut := classificationOut + ["Class D"];
      }
    }
  }

  method ClassificationOtherMethod(harmonicMeanOtherMethod: seq<real>, classificationOtherMethod: seq<string>)
    returns (extended: seq<string>)
    ensures |extended| == |classificationOtherMethod| + |harmonicMeanOtherMethod|
    ensures extended[..|classificationOtherMethod|] == classificationOtherMethod
    ensures forall i :: 0 <= i < |harmonicMeanOtherMethod| ==>
      extended[|classificationOtherMethod| + i] == Unweighted(harmonicMeanOtherMethod[i]).Name()
  {
    extended := classificationOtherMethod;
    for k := 0 to |harmonicMeanOtherMethod|
      invariant |extended| == |classificationOtherMethod| + k
      invariant extended[..|classificationOtherMethod|] == classificationOtherMethod
      invariant forall i :: 0 <= i < k ==>
        extended[|classificationOtherMethod| + i] == Unweighted(harmonicMeanOtherMethod[i]).Name()
    {
      var i := harmonicMeanOtherMethod[k];
      if i >= 0.333 {
        extended := extended + ["Class A"];
      } else if i > 0.256 {
        extended := extended + ["Class B"];
      } else if i > 0.180 {
        extended := extended + ["Class C"];
      } else if i > 0.105 {
        extended := extended + ["Class D"];
      } else {
        extended := extended + ["Class E"];
      }
    }
  }

  // ---------------------------------------------------------------------
  // harmonic_mean and harmonic_mean_other_method

  /** The shift added to every point of clone i: A * Um when the module-level
      newHMFlag is set, A otherwise. */
  function Offsets(asymptotes: seq<real>, growthRates: seq<real>, newHMFlag: bool, n: nat): (o: seq<real>)
    requires |asymptotes| >= n && (newHMFlag ==> |growthRates| >= n)
    ensures |o| == n
  {
    seq(n, i requires 0 <= i < n => if newHMFlag then asymptotes[i] * growthRates[i] else asymptotes[i])
  }

  /** Every point of every clone, shifted by its clone's offset, is non-zero. */
  predicate Shiftable(models: seq<seq<real>>, offsets: seq<real>)
  {
    |offsets| >= |models| && forall i :: 0 <= i < |models| ==> NoZeroShift(models[i], offsets[i])
  }

  /** The reciprocals `1 / (y + offset)` of each clone's curve. */
  function RatioRows(models: seq<seq<real>>, offsets: seq<real>): (r: seq<seq<real>>)
    requires Shiftable(models, offsets)
    ensures |r| == |models|
  {
    seq(|models|, i requires 0 <= i < |models| => Reciprocals(models[i], offsets[i]))
  }

  /** The flat list of reciprocals cut into `len(models)` pieces of `len(models[0])`. */
  function RatioBlocks(models: seq<seq<real>>, offsets: seq<real>): (b: seq<seq<real>>)
    requires |models| >= 1 && Shiftable(models, offsets)
    ensures |b| == |models|
  {
    Slices(Concat(RatioRows(models, offsets)), PrefixSums(0, Repeat(|models[0]|, |models|)))
  }

  /** No piece sums to zero, so `len(i) / sum(i)` is defined for each. */
  predicate Summable(models: seq<seq<real>>, offsets: seq<real>)
  {
    |models| >= 1 && Shiftable(models, offsets) &&
    forall k :: 0 <= k < |models| ==> Sum(RatioBlocks(models, offsets)[k]) != 0.0
  }

  function HarmonicMeans(models: seq<seq<real>>, offsets: seq<real>): (h: seq<real>)
    requires Summable(models, offsets)
    ensures |h| == |models|
  {
    var blocks := RatioBlocks(models, offsets);
    seq(|models|, k requires 0 <= k < |models| => (|blocks[k]| as real) / Sum(blocks[k]))
  }

  /** The loop nest that flattens the reciprocals, clone after clone. */
  method FlatRatios(models: seq<seq<real>>, asymptotes: seq<real>, growthRates: seq<real>, newHMFlag: bool)
    returns (ratio: seq<real>)
    requires |asymptotes| >= |models| && (newHMFlag ==> |growthRates| >= |models|)
    requires Shiftable(models, Offsets(asymptotes, growthRates, newHMFlag, |models|))
    ensures ratio == Concat(RatioRows(models, Offsets(asymptotes, growthRates, newHMFlag, |models|)))
  {
    ghost var offsets := Offsets(asymptotes, growthRates, newHMFlag, |models|);
    ghost var rows := RatioRows(models, offsets);
    ratio := [];
    for i := 0 to |models|
      invariant ratio == Concat(rows[..i])
    {
      ghost var before := ratio;
      assert rows[i] == Reciprocals(models[i], offsets[i]);
      assert offsets[i] == if newHMFlag then asymptotes[i] * growthRates[i] else asymptotes[i];
      for x := 0 to |models[i]|
        invariant ratio == before + rows[i][..x]
      {
        assert rows[i][x] == 1.0 / (models[i][x] + offsets[i]);
        if newHMFlag {
          ratio := ratio + [1.0 / (models[i][x] + asymptotes[i] * growthRates[i])];
        } else {
          ratio := ratio + [1.0 / (models[i][x] + asymptotes[i])];
        }
      }
      assert rows[i][..|models[i]|] == rows[i];
      ConcatTake(rows, i);
    }
    assert rows[..|models|] == rows;
  }

  /** The same loop nest without any shift. */
  method FlatReciprocals(models: seq<seq<real>>) returns (ratio: seq<real>)
    requires Shiftable(models, Repeat(0.0, |models|))
    ensures ratio == Concat(RatioRows(models, Repeat(0.0, |models|)))
  {
    ghost var rows := RatioRows(models, Repeat(0.0, |models|));
    ratio := [];
    for i := 0 to |models|
      invariant ratio == Concat(rows[..i])
    {
      ghost var before := ratio;
      assert rows[i] == Reciprocals(models[i], 0.0);
      for x := 0 to |models[i]|
        invariant ratio == before + rows[i][..x]
      {
        assert rows[i][x] == 1.0 / (models[i][x] + 0.0) == 1.0 / models[i][x];
        ratio := ratio + [1.0 / models[i][x]];
      }
      assert rows[i][..|models[i]|] == rows[i];
      ConcatTake(rows, i);
    }
    assert rows[..|models|] == rows;
  }

  /** `for i in ratio_by_clone: harmonic_mean.append(len(i) / sum(i))` */
  method AppendHarmonicMeans(ratioByClone: seq<seq<real>>, harmonicMean: seq<real>) returns (extended: seq<real>)
    requires forall k :: 0 <= k < |ratioByClone| ==> Sum(ratioByClone[k]) != 0.0
    ensures |extended| == |harmonicMean| + |ratioByClone| && extended[..|harmonicMean|] == harmonicMean
    ensures forall k :: 0 <= k < |ratioByClone| ==>
      extended[|harmonicMean| + k] == (|ratioByClone[k]| as real) / Sum(ratioByClone[k])
  {
    extended := harmonicMean;
    for k := 0 to |ratioByClone|
      invariant |extended| == |harmonicMean| + k && extended[..|harmonicMean|] == harmonicMean
      invariant forall j :: 0 <= j < k ==>
        extended[|harmonicMean| + j] == (|ratioByClone[j]| as real) / Sum(ratioByClone[j])
    {
      var i := ratioByClone[k];
      extended := extended + [(|i| as real) / Sum(i)];
    }
  }

  /** Lines 524-542. */
  method HarmonicMean(models: seq<seq<real>>, asymptotes: seq<real>, growthRates: seq<real>, newHMFlag: bool,
                      harmonicMean: seq<real>)
    returns (extended: seq<real>)
    requires |asymptotes| >= |models| && (newHMFlag ==> |growthRates| >= |models|)
    requires Summable(models, Offsets(asymptotes, growthRates, newHMFlag, |models|))
    ensures extended == harmonicMean + HarmonicMeans(models, Offsets(asymptotes, growthRates, newHMFlag, |models|))
  {
    ghost var offsets := Offsets(asymptotes, growthRates, newHMFlag, |models|);
    var ratio := FlatRatios(models, asymptotes, growthRates, newHMFlag);
    var ratioByClone := SliceBySizes(ratio, Repeat(|models[0]|, |models|), []);
    assert ratioByClone == RatioBlocks(models, offsets);
    extended := AppendHarmonicMeans(ratioByClone, harmonicMean);
    HarmonicMeansAppended(models, offsets, harmonicMean, extended);
  }

  /** Lines 543-552: no shift at all. */
  method HarmonicMeanOtherMethod(models: seq<seq<real>>, harmonicMeanOtherMethod: seq<real>)
    returns (extended: seq<real>)
    requires Summable(models, Repeat(0.0, |models|))
    ensures extended == harmonicMeanOtherMethod + HarmonicMeans(models, Repeat(0.0, |models|))
  {
    var ratio := FlatReciprocals(models);
    var ratioByClone := SliceBySizes(ratio, Repeat(|models[0]|, |models|), []);
    assert ratioByClone == RatioBlocks(models, Repeat(0.0, |models|));
    extended := AppendHarmonicMeans(ratioByClone, harmonicMeanOtherMethod);
    HarmonicMeansAppended(models, Repeat(0.0, |models|), harmonicMeanOtherMethod, extended);
  }

  /** Entry by entry, the appended means are the harmonic means of the pieces. */
  lemma HarmonicMeansAppended(models: seq<seq<real>>, offsets: seq<real>, harmonicMean: seq<real>, extended: seq<real>)
    requires Summable(models, offsets)
    requires |extended| == |harmonicMean| + |models| && extended[..|harmonicMean|] == harmonicMean
    requires forall k :: 0 <= k < |models| ==>
      extended[|harmonicMean| + k] == (|RatioBlocks(models, offsets)[k]| as real) / Sum(RatioBlocks(models, offsets)[k])
    ensures extended == harmonicMean + HarmonicMeans(models, offsets)
  {
    var h := HarmonicMeans(models, offsets);
    forall j | 0 <= j < |extended| ensures extended[j] == (harmonicMean + h)[j] {
      if j >= |harmonicMean| {
        assert extended[|harmonicMean| + (j - |harmonicMean|)] == h[j - |harmonicMean|];
      }
    }
  }

  /** When every clone has as many points as the first, piece k is exactly clone k's
      reciprocals, and its harmonic mean is clone k's harmonic growth level. */
  lemma RectangularHarmonic(models: seq<seq<real>>, offsets: seq<real>)
    requires |models| >= 1 && Shiftable(models, offsets)
    requires forall i :: 0 <= i < |models| ==> |models[i]| == |models[0]|
    ensures RatioBlocks(models, offsets) == RatioRows(models, offsets)
    ensures Summable(models, offsets) ==> forall k :: 0 <= k < |models| ==>
      HarmonicDefined(models[k], offsets[k]) && HarmonicMeans(models, offsets)[k] == HarmonicLevel(models[k], offsets[k])
  {
    var rows := RatioRows(models, offsets);
    assert Lengths(rows) == Repeat(|models[0]|, |models|);
    SlicesOfConcat(rows);
    assert RatioBlocks(models, offsets) == rows;
    if Summable(models, offsets) {
      forall k | 0 <= k < |models|
        ensures HarmonicDefined(models[k], offsets[k]) && HarmonicMeans(models, offsets)[k] == HarmonicLevel(models[k], offsets[k])
      {
        assert rows[k] == Reciprocals(models[k], offsets[k]);
      }
    }
  }
}
