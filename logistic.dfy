/** The logistic model and the lag-phase search of scripts/PManalysis.py (classes
    LogisticModel and Lag_phase_evaluation, lines 410-459). The exponential is
    a parameter `exp`, positive everywhere as the real exponential is. */
module LogisticFit {
  import opened Seqs
  import opened Stats

  /** The fields of a LogisticModel object; its constructor sets them and `model` only reads them. */
  datatype LogisticModel = LogisticModel(averageA: seq<real>, lagTime: real, asymptote: real, p2: real,
                                         maxGrowthRate: real, experimentTime: seq<real>)

  ghost predicate Positive(exp: real -> real)
  {
    forall x :: exp(x) > 0.0
  }

  function Abs(x: real): real
  {
    if x < 0.0 then -x else x
  }

  /** The logistic point at time t: p2 + (A - p2) / (1 + exp((Um / A) * (L - t) + 2)). */
  function Point(m: LogisticModel, t: real, exp: real -> real): real
    requires m.asymptote != 0.0 && Positive(exp)
  {
    var e := exp((m.maxGrowthRate / m.asymptote) * (m.lagTime - t) + 2.0);
    m.p2 + (m.asymptote - m.p2) / (1.0 + e)
  }

  /** The predicted points, one per time of the module-level experiment_time. */
  function PredictedCurve(m: LogisticModel, time: seq<real>, exp: real -> real): (y: seq<real>)
    requires m.asymptote != 0.0 && Positive(exp)
    ensures |y| == |time|
  {
    seq(|time|, i requires 0 <= i < |time| => Point(m, time[i], exp))
  }

  /** Every predicted point lies strictly between p2 and the asymptote (or equals
      both when they coincide): the logistic rises from p2 towards A. */
  lemma PointBetween(m: LogisticModel, t: real, exp: real -> real)
    requires m.asymptote != 0.0 && Positive(exp)
    ensures m.p2 < m.asymptote ==> m.p2 < Point(m, t, exp) < m.asymptote
    ensures m.asymptote < m.p2 ==> m.asymptote < Point(m, t, exp) < m.p2
    ensures m.asymptote == m.p2 ==> Point(m, t, exp) == m.p2
  {
    var e := exp((m.maxGrowthRate / m.asymptote) * (m.lagTime - t) + 2.0);
    var d := m.asymptote - m.p2;
    var q := d / (1.0 + e);
    assert q * (1.0 + e) == d;
    assert q * e + q == d;
    if d > 0.0 {
      assert q > 0.0;
      assert q * e > 0.0;
    } else if d < 0.0 {
      assert q < 0.0;
      assert q * e < 0.0;
    }
  }

  /** The terms `((a - (a + y) / 2) ** 2) ** 0.5` of the residual, that is |a - (a + y) / 2|. */
  function HalfGaps(a: seq<real>, y: seq<real>): (g: seq<real>)
    requires |a| <= |y|
    ensures |g| == |a|
  {
    seq(|a|, i requires 0 <= i < |a| => Abs(a[i] - (a[i] + y[i]) / 2.0))
  }

  /** The distances |a - y| between data and model. */
  function Gaps(a: seq<real>, y: seq<real>): (g: seq<real>)
    requires |a| <= |y|
    ensures |g| == |a|
  {
    seq(|a|, i requires 0 <= i < |a| => Abs(a[i] - y[i]))
  }

  /** The model's standard deviation: the mean of the half gaps over the data points. */
  function Deviation(a: seq<real>, y: seq<real>): real
    requires 0 < |a| <= |y|
  {
    Sum(HalfGaps(a, y)) / (|a| as real)
  }

  lemma {:induction false} SumHalves(s: seq<real>, t: seq<real>)
    requires |s| == |t|
    requires forall i :: 0 <= i < |s| ==> t[i] == s[i] / 2.0
    ensures Sum(t) == Sum(s) / 2.0
  {
    if |s| > 0 {
      SumHalves(s[..|s| - 1], t[..|t| - 1]);
    }
  }

  /** The residual is the mean absolute gap between data and model, halved. */
  lemma DeviationOfGaps(a: seq<real>, y: seq<real>)
    requires 0 < |a| <= |y|
    ensures Deviation(a, y) == Sum(Gaps(a, y)) / (2.0 * (|a| as real))
  {
    var g := Gaps(a, y);
    var h := HalfGaps(a, y);
    forall i | 0 <= i < |a| ensures h[i] == g[i] / 2.0 {
      assert a[i] - (a[i] + y[i]) / 2.0 == (a[i] - y[i]) / 2.0;
    }
    SumHalves(g, h);
    var n := |a| as real;
    var total := Sum(g);
    assert total / 2.0 / n == total / (2.0 * n) by {
      var c := 2.0 * n;
      assert (total / 2.0 / n) * c == total;
      assert (total / c) * c == total;
      CancelFactor(total / 2.0 / n, total / c, c);
    }
  }

  lemma CancelFactor(x: real, y: real, c: real)
    requires c != 0.0 && x * c == y * c
    ensures x == y
  {
    assert (x - y) * c == 0.0;
  }

  /** The residual is never negative, and it is zero exactly when the model
      reproduces the data point for point. */
  lemma DeviationZero(a: seq<real>, y: seq<real>)
    requires 0 < |a| <= |y|
    ensures Deviation(a, y) >= 0.0
    ensures Deviation(a, y) == 0.0 <==> y[..|a|] == a
  {
    var g := Gaps(a, y);
    var n := |a| as real;
    DeviationOfGaps(a, y);
    SumNonNegativeZero(g);
    assert Deviation(a, y) == 0.0 <==> Sum(g) == 0.0;
    if Sum(g) == 0.0 {
      forall i | 0 <= i < |a| ensures y[..|a|][i] == a[i] {
        assert g[i] == 0.0;
      }
    }
    if y[..|a|] == a {
      forall i | 0 <= i < |a| ensures g[i] == 0.0 {
        assert y[..|a|][i] == a[i];
      }
    }
  }

  /** Lines 418-433: appends the predicted curve to `modelY` and `[residual]` to `modelStdev`. */
  method Model(m: LogisticModel, globalExperimentTime: seq<real>, exp: real -> real,
               modelY: seq<seq<real>>, modelStdev: seq<seq<real>>)
    returns (modelYOut: seq<seq<real>>, modelStdevOut: seq<seq<real>>)
    requires m.asymptote != 0.0 && Positive(exp)
    requires 0 < |m.averageA| <= |globalExperimentTime|
    ensures modelYOut == modelY + [PredictedCurve(m, globalExperimentTime, exp)]
    ensures modelStdevOut == modelStdev + [[Deviation(m.averageA, PredictedCurve(m, globalExperimentTime, exp))]]
  {
    var curve: seq<real> := [];
    for i := 0 to |globalExperimentTime|
      invariant curve == PredictedCurve(m, globalExperimentTime, exp)[..i]
    {
      curve := curve + [Point(m, globalExperimentTime[i], exp)];
    }
    assert curve == PredictedCurve(m, globalExperimentTime, exp);
    var squares: seq<real> := [];
    for i := 0 to |m.averageA|
      invariant squares == HalfGaps(m.averageA, curve)[..i]
    {
      squares := squares + [Abs(m.averageA[i] - (m.averageA[i] + curve[i]) / 2.0)];
    }
    assert squares == HalfGaps(m.averageA, curve);
    modelYOut := modelY + [curve];
    modelStdevOut := modelStdev + [[Sum(squares) / (|m.averageA| as real)]];
  }

  // ---------------------------------------------------------------------
  // The lag-phase search.

  /** The fields of a Lag_phase_evaluation object. */
  datatype LagPhaseEvaluation = LagPhaseEvaluation(averageA: seq<real>, asymptote: real, p2: real,
                                                   maxGrowthRate: real, experimentTime: seq<real>,
                                                   timeVector: seq<real>)

  /** The logistic model probed with lag time `lag`. */
  function Probe(ev: LagPhaseEvaluation, lag: real): LogisticModel
  {
    LogisticModel(ev.averageA, lag, ev.asymptote, ev.p2, ev.maxGrowthRate, ev.experimentTime)
  }

  /** The residual of each probe of the time vector. */
  function ProbeDeviations(ev: LagPhaseEvaluation, globalExperimentTime: seq<real>, exp: real -> real): (d: seq<real>)
    requires ev.asymptote != 0.0 && Positive(exp)
    requires 0 < |ev.averageA| <= |globalExperimentTime|
    ensures |d| == |ev.timeVector|
  {
    seq(|ev.timeVector|, k requires 0 <= k < |ev.timeVector| =>
      Deviation(ev.averageA, PredictedCurve(Probe(ev, ev.timeVector[k]), globalExperimentTime, exp)))
  }

  /** `d.index(min(d))`: the first position of the smallest value. */
  function FirstArgMin(d: seq<real>): (k: nat)
    requires |d| > 0
    ensures k < |d|
    ensures forall j :: 0 <= j < |d| ==> d[k] <= d[j]
    ensures forall j :: 0 <= j < k ==> d[j] > d[k]
  {
    IndexOf(d, Min(d))
  }

  /** Lines 448-459: probes every lag of the time vector and appends the entry of the
      module-level time_vector at the first probe whose residual is smallest. */
  method LagPhaseSelection(ev: LagPhaseEvaluation, globalExperimentTime: seq<real>, globalTimeVector: seq<real>,
                           exp: real -> real, lagPhase: seq<real>)
    returns (lagPhaseOut: seq<real>)
    requires ev.asymptote != 0.0 && Positive(exp)
    requires 0 < |ev.averageA| <= |globalExperimentTime|
    requires 0 < |ev.timeVector| <= |globalTimeVector|
    ensures lagPhaseOut == lagPhase + [globalTimeVector[FirstArgMin(ProbeDeviations(ev, globalExperimentTime, exp))]]
  {
    var modelY: seq<seq<real>> := [];
    var stdev: seq<seq<real>> := [];
    for k := 0 to |ev.timeVector|
      invariant |stdev| == k
      invariant forall j :: 0 <= j < k ==> stdev[j] == [ProbeDeviations(ev, globalExperimentTime, exp)[j]]
    {
      modelY, stdev := Model(Probe(ev, ev.timeVector[k]), globalExperimentTime, exp, modelY, stdev);
    }
    // Each entry of the residual list is a one-element list, so the lexicographic
    // `min` and `index` of the source compare the residuals themselves.
    var residuals := seq(|stdev|, j requires 0 <= j < |stdev| => stdev[j][0]);
    assert residuals == ProbeDeviations(ev, globalExperimentTime, exp);
    var index := IndexOf(residuals, Min(residuals));
    lagPhaseOut := lagPhase + [globalTimeVector[index]];
  }

  /** A probe whose curve reproduces the data is never beaten: the chosen residual is 0. */
  lemma ExactFitSelected(ev: LagPhaseEvaluation, globalExperimentTime: seq<real>, exp: real -> real, k: nat)
    requires ev.asymptote != 0.0 && Positive(exp)
    requires 0 < |ev.averageA| <= |globalExperimentTime|
    requires k < |ev.timeVector|
    requires PredictedCurve(Probe(ev, ev.timeVector[k]), globalExperimentTime, exp)[..|ev.averageA|] == ev.averageA
    ensures ProbeDeviations(ev, globalExperimentTime, exp)[FirstArgMin(ProbeDeviations(ev, globalExperimentTime, exp))] == 0.0
  {
    var d := ProbeDeviations(ev, globalExperimentTime, exp);
    var best := FirstArgMin(d);
    var fit := PredictedCurve(Probe(ev, ev.timeVector[k]), globalExperimentTime, exp);
    var chosen := PredictedCurve(Probe(ev, ev.timeVector[best]), globalExperimentTime, exp);
    DeviationZero(ev.averageA, fit);
    DeviationZero(ev.averageA, chosen);
    assert d[k] == Deviation(ev.averageA, fit) == 0.0;
    assert d[best] == Deviation(ev.averageA, chosen) >= 0.0;
  }
}
