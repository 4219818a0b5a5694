/** The growth-curve extractor of scripts/py/GrowthCurve.py: the median curve of
    the replicates, its overlapping-window asymptote, its second-largest growth
    rate and the harmonic growth level of the fitted logistic curve. The natural
    logarithms of the median curve and the fitted logistic curve with its lag
    come in as inputs. */
module GrowthCurveModel {
  import opened Stats

  /** Every replicate has as many readings as the first. */
  predicate Rectangular(data: seq<seq<real>>)
  {
    forall i :: 0 <= i < |data| ==> |data[i]| == |data[0]|
  }

  /** `median(data, axis=0)`: the median of each reading across the replicates. */
  function MedianColumns(data: seq<seq<real>>): (m: seq<real>)
    requires |data| > 0 && Rectangular(data)
    ensures |m| == |data[0]|
  {
    seq(|data[0]|, j requires 0 <= j < |data[0]| => Median(seq(|data|, i requires 0 <= i < |data| => data[i][j])))
  }

  /** Replicates that agree give their common curve as the median. */
  lemma MedianOfAgreeingReplicates(data: seq<seq<real>>)
    requires |data| > 0 && Rectangular(data)
    requires forall i :: 0 <= i < |data| ==> data[i] == data[0]
    ensures MedianColumns(data) == data[0]
  {
    forall j | 0 <= j < |data[0]| ensures MedianColumns(data)[j] == data[0][j] {
      var column := seq(|data|, i requires 0 <= i < |data| => data[i][j]);
      assert forall i :: 0 <= i < |column| ==> column[i] == data[0][j];
      MedianBounds(column, data[0][j], data[0][j]);
    }
  }

  // ---------------------------------------------------------------------
  // calcAsymptote

  /** The largest of -1 and the means of the windows starting at idx in [1, stop). */
  function PeakMean(data: seq<real>, stop: int): real
    requires stop <= |data| - 2
  {
    if stop <= 1 then -1.0
    else
      var best := PeakMean(data, stop - 1);
      if WindowMean(data, stop - 1) > best then WindowMean(data, stop - 1) else best
  }

  /** The value calcAsymptote returns for the curve `data`. */
  function Asymptote(data: seq<real>): real
  {
    if |data| < 4 then -1.0 else PeakMean(data, |data| - 3)
  }

  /** The scan returns the largest window mean, or -1 when no window exceeds it
      (in particular when there is no window). */
  lemma {:induction false} PeakMeanIsMax(data: seq<real>, stop: int)
    requires stop <= |data| - 2
    ensures PeakMean(data, stop) >= -1.0
    ensures forall idx :: 1 <= idx < stop ==> WindowMean(data, idx) <= PeakMean(data, stop)
    ensures PeakMean(data, stop) == -1.0 || exists idx :: 1 <= idx < stop && PeakMean(data, stop) == WindowMean(data, idx)
  {
    if stop > 1 {
      PeakMeanIsMax(data, stop - 1);
    }
  }

  /** Curves of fewer than five readings have no window. */
  lemma AsymptoteOfShortCurve(data: seq<real>)
    requires |data| <= 4
    ensures Asymptote(data) == -1.0
  {
  }

  // ---------------------------------------------------------------------
  // calcMGR

  /** The time a window idx..idx + 3 spans. */
  function Span(time: seq<real>, idx: nat): real
    requires idx + 3 < |time|
  {
    time[idx + 3] - time[idx]
  }

  /** Every window of the rate loop is read at four times, and its two ends differ. */
  predicate RatesDefined(logData: seq<real>, time: seq<real>)
  {
    (|logData| >= 5 ==> |time| >= |logData| - 1)
    && forall idx :: 1 <= idx < |logData| - 4 ==> idx + 3 < |time| && Span(time, idx) != 0.0
  }

  /** The rise of the logarithm over the window idx..idx + 3. */
  function Rise(logData: seq<real>, idx: nat): real
    requires idx + 3 < |logData|
  {
    logData[idx + 3] - logData[idx]
  }

  /** The growth rate of the window idx..idx + 3. */
  function WindowRate(logData: seq<real>, time: seq<real>, idx: nat): real
    requires 1 <= idx < |logData| - 4 && RatesDefined(logData, time)
  {
    Rise(logData, idx) / Span(time, idx)
  }

  /** The rate of each window idx..idx + 3, for idx in [1, n - 4): entry k is window k + 1. */
  function GrowthRates(logData: seq<real>, time: seq<real>): (r: seq<real>)
    requires RatesDefined(logData, time)
    ensures |r| == if |logData| < 5 then 0 else |logData| - 5
  {
    if |logData| < 5 then []
    else seq(|logData| - 5, k requires 0 <= k < |logData| - 5 => WindowRate(logData, time, k + 1))
  }

  /** A logarithmic curve rising at one constant rate gives that rate for every window. */
  lemma GrowthRatesOfLine(logData: seq<real>, time: seq<real>, rate: real)
    requires RatesDefined(logData, time)
    requires forall idx :: 1 <= idx < |logData| - 4 ==> Rise(logData, idx) == rate * Span(time, idx)
    ensures forall k :: 0 <= k < |GrowthRates(logData, time)| ==> GrowthRates(logData, time)[k] == rate
  {
    forall k | 0 <= k < |GrowthRates(logData, time)| ensures GrowthRates(logData, time)[k] == rate {
      var idx := k + 1;
      assert Rise(logData, idx) == rate * Span(time, idx);
      RiseOverSpan(logData[idx + 3] - logData[idx], Span(time, idx), rate);
    }
  }

  lemma RiseOverSpan(rise: real, span: real, rate: real)
    requires span != 0.0 && rise == rate * span
    ensures rise / span == rate
  {
  }

  /** The rate loop of lines 34-39: one rate per window idx..idx + 3, idx in [1, n - 4). */
  method CollectRates(logMed: seq<real>, time: seq<real>) returns (grs: seq<real>)
    requires RatesDefined(logMed, time)
    ensures grs == GrowthRates(logMed, time)
  {
    var stop := |logMed| - 4;
    grs := [];
    var idx := 1;
    while idx < stop
      invariant 1 <= idx && (stop >= 1 ==> idx <= stop) && (stop < 1 ==> idx == 1)
      invariant grs == GrowthRates(logMed, time)[..idx - 1]
    {
      var gr := (logMed[idx + 3] - logMed[idx]) / (time[idx + 3] - time[idx]);
      assert gr == WindowRate(logMed, time, idx);
      grs := grs + [gr];
      idx := idx + 1;
    }
    assert GrowthRates(logMed, time)[..idx - 1] == GrowthRates(logMed, time);
  }

  class GrowthCurve {
    var dataReps: seq<seq<real>>
    var dataMed: seq<real>
    var logMed: seq<real>
    var time: seq<real>
    var asymptote: real
    var maxGrowthRate: real
    var mgrTime: real
    var dataLogistic: seq<real>
    var lag: real
    var growthLevel: real

    /** Lines 12-20, with the logarithm of the median curve and the fitted logistic
        curve and lag as arguments. */
    constructor (data: seq<seq<real>>, time: seq<real>, logMedian: seq<real>, dataLogistic: seq<real>, lag: real)
      requires |data| > 0 && Rectangular(data)
      requires |logMedian| == |data[0]| >= 7
      requires RatesDefined(logMedian, time)
      requires HarmonicDefined(dataLogistic, Asymptote(MedianColumns(data)))
      ensures dataReps == data && dataMed == MedianColumns(data) && logMed == logMedian && this.time == time
      ensures asymptote == Asymptote(dataMed)
      ensures IsSecondLargest(GrowthRates(logMed, time), maxGrowthRate)
      ensures exists k :: 0 <= k < |GrowthRates(logMed, time)| && GrowthRates(logMed, time)[k] == maxGrowthRate && mgrTime == time[k + 2]
      ensures this.dataLogistic == dataLogistic && this.lag == lag
      ensures growthLevel == HarmonicLevel(dataLogistic, asymptote)
    {
      dataReps := data;
      dataMed := MedianColumns(data);
      logMed := logMedian;
      this.time := time;
      this.dataLogistic := dataLogistic;
      this.lag := lag;
      new;
      asymptote := CalcAsymptote();
      maxGrowthRate, mgrTime := CalcMGR();
      growthLevel := CalcGrowth();
    }

    /** Lines 22-30: the largest mean of three consecutive readings over the
        windows starting at 1 to n - 4, kept only when it exceeds -1. */
    method CalcAsymptote() returns (maxA: real)
      ensures maxA == Asymptote(dataMed)
    {
      var stop := |dataMed| - 3;
      maxA := -1.0;
      var idx := 1;
      while idx < stop
        invariant stop >= 1 ==> 1 <= idx <= stop
        invariant stop >= 1 ==> maxA == PeakMean(dataMed, idx)
        invariant stop < 1 ==> maxA == -1.0
      {
        var av := WindowMean(dataMed, idx);
        if av > maxA {
          maxA := av;
        }
        idx := idx + 1;
      }
    }

    /** Lines 32-43: the growth rate second in the sorted order, and the time two
        readings after its window's index in the rate list. */
    method CalcMGR() returns (maxGR: real, t: real)
      requires |logMed| >= 7 && RatesDefined(logMed, time)
      ensures IsSecondLargest(GrowthRates(logMed, time), maxGR)
      ensures exists k :: 0 <= k < |GrowthRates(logMed, time)| && GrowthRates(logMed, time)[k] == maxGR && t == time[k + 2]
    {
      var grs := CollectRates(logMed, time);
      // argsort's tie order is not modelled: any index of the value will do, this one is the first.
      maxGR := SecondLargest(grs);
      var sortIdx := IndexOf(grs, maxGR);
      t := time[sortIdx + 2];
    }

    /** Lines 52-55. */
    function CalcGrowth(): real
      reads this
      requires HarmonicDefined(dataLogistic, asymptote)
    {
      HarmonicLevel(dataLogistic, asymptote)
    }
  }
}
