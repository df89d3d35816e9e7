/** Summarising a feature drift table (counts and a percentage rounded to
    hundredths) and the alert rule applied to the summary. */
module DriftReporting {
  import opened Tables
  import opened DriftDetection

  const DefaultAlertThreshold: real := 10.0

  datatype DriftSummary = DriftSummary(totalFeatures: nat, driftedFeatures: nat, driftPercentage: real)

  /** The number of rows whose drift flag is set. */
  function CountDrifted(rows: seq<FeatureDrift>): (n: nat)
    ensures n <= |rows|
    ensures n == 0 <==> forall i :: 0 <= i < |rows| ==> !rows[i].driftDetected
    ensures n == |rows| <==> forall i :: 0 <= i < |rows| ==> rows[i].driftDetected
  {
    if rows == [] then 0
    else (if rows[0].driftDetected then 1 else 0) + CountDrifted(rows[1..])
  }

  /** If every row flagged in `r1` is flagged in `r2`, `r2` counts at least
      as many. */
  lemma {:induction false} CountDriftedMonotone(r1: seq<FeatureDrift>, r2: seq<FeatureDrift>)
    requires |r1| == |r2|
    requires forall i :: 0 <= i < |r1| ==> r1[i].driftDetected ==> r2[i].driftDetected
    ensures CountDrifted(r1) <= CountDrifted(r2)
  {
    if r1 != [] {
      CountDriftedMonotone(r1[1..], r2[1..]);
    }
  }

  /** The integer nearest to `x`; a tie goes to the even neighbour. */
  function RoundHalfEven(x: real): (k: int)
    ensures k as real - 0.5 <= x <= k as real + 0.5
    ensures (x == k as real - 0.5 || x == k as real + 0.5) ==> k % 2 == 0
  {
    var f := x.Floor;
    var frac := x - f as real;
    if frac < 0.5 then f
    else if frac > 0.5 then f + 1
    else if f % 2 == 0 then f
    else f + 1
  }

  lemma RoundHalfEvenMonotone(x: real, y: real)
    requires x <= y
    ensures RoundHalfEven(x) <= RoundHalfEven(y)
  {
    var kx, ky := RoundHalfEven(x), RoundHalfEven(y);
    if kx > ky {
      assert false;
    }
  }

  lemma RoundHalfEvenOfInteger(n: int)
    ensures RoundHalfEven(n as real) == n
  {
    var k := RoundHalfEven(n as real);
    assert k - 1 < n < k + 1 || k as real - 0.5 == n as real || k as real + 0.5 == n as real;
  }

  /** `round(drifted / total * 100, 2)`, exactly: the percentage rounded to
      the nearest hundredth. */
  function DriftPercentage(drifted: nat, total: nat): (pct: real)
    requires 0 < total
    ensures (100.0 * pct).Floor as real == 100.0 * pct
    ensures var exact := 100.0 * drifted as real / total as real;
      && exact - 0.005 <= pct <= exact + 0.005
      && ((exact == pct - 0.005 || exact == pct + 0.005) ==> (100.0 * pct).Floor % 2 == 0)
  {
    var exact := 100.0 * drifted as real / total as real;
    var k := RoundHalfEven(100.0 * exact);
    assert 100.0 * (k as real / 100.0) == k as real;
    assert k as real / 100.0 - 0.005 <= exact <= k as real / 100.0 + 0.005;
    k as real / 100.0
  }

  lemma DriftPercentageBounds(drifted: nat, total: nat)
    requires 0 < total && drifted <= total
    ensures 0.0 <= DriftPercentage(drifted, total) <= 100.0
    ensures drifted == 0 ==> DriftPercentage(drifted, total) == 0.0
    ensures drifted == total ==> DriftPercentage(drifted, total) == 100.0
  {
    var x := 100.0 * (100.0 * drifted as real / total as real);
    assert 0.0 <= x <= 10000.0 by {
      assert drifted as real / total as real <= 1.0;
    }
    assert drifted == total ==> x == 10000.0;
    RoundHalfEvenMonotone(0.0, x);
    RoundHalfEvenMonotone(x, 10000.0);
    RoundHalfEvenOfInteger(0);
    RoundHalfEvenOfInteger(10000);
  }

  /** More drifted features out of the same total never lower the
      percentage. */
  lemma DriftPercentageMonotone(d1: nat, d2: nat, total: nat)
    requires 0 < total && d1 <= d2
    ensures DriftPercentage(d1, total) <= DriftPercentage(d2, total)
  {
    var x1 := 100.0 * (100.0 * d1 as real / total as real);
    var x2 := 100.0 * (100.0 * d2 as real / total as real);
    assert x1 <= x2 by {
      assert d1 as real / total as real <= d2 as real / total as real;
    }
    RoundHalfEvenMonotone(x1, x2);
  }

  /** The summary of `generate_feature_drift_report`. Its percentage divides
      by the number of rows, so an empty table is an error. */
  function Summarize(rows: seq<FeatureDrift>): (r: Result<DriftSummary>)
    ensures r.Err? <==> rows == []
    ensures r.Err? ==> r.error == EmptyReport
    ensures r.Ok? ==>
      && r.value.totalFeatures == |rows|
      && r.value.driftedFeatures == CountDrifted(rows)
      && r.value.driftedFeatures <= r.value.totalFeatures
      && r.value.driftPercentage == DriftPercentage(r.value.driftedFeatures, r.value.totalFeatures)
      && 0.0 <= r.value.driftPercentage <= 100.0
      && (r.value.driftedFeatures == 0 ==> r.value.driftPercentage == 0.0)
      && (r.value.driftedFeatures == r.value.totalFeatures ==> r.value.driftPercentage == 100.0)
  {
    if rows == [] then Err(EmptyReport)
    else
      var total := |rows|;
      var drifted := CountDrifted(rows);
      DriftPercentageBounds(drifted, total);
      Ok(DriftSummary(total, drifted, DriftPercentage(drifted, total)))
  }

  /** The drift table as a data frame object, which callers may go on using
      after it has been summarised. */
  class ReportFrame {
    var records: seq<FeatureDrift>

    constructor (records: seq<FeatureDrift>)
      ensures this.records == records
    {
      this.records := records;
    }

    /** `DataFrame.copy()`: a new frame with the same rows. */
    method Copy() returns (c: ReportFrame)
      ensures fresh(c) && c.records == records
    {
      c := new ReportFrame(records);
    }
  }

  /** `generate_feature_drift_report`: summarises a copy of the frame and
      returns that copy with the summary; the caller's frame is left as it
      was and shares nothing with the returned one. */
  method GenerateFeatureDriftReport(featureDriftDf: ReportFrame)
    returns (r: Result<(ReportFrame, DriftSummary)>)
    ensures r.Err? <==> featureDriftDf.records == []
    ensures r.Err? ==> r.error == EmptyReport
    ensures r.Ok? ==> fresh(r.value.0) && r.value.0.records == featureDriftDf.records
    ensures r.Ok? ==> Summarize(featureDriftDf.records) == Ok(r.value.1)
  {
    var report := featureDriftDf.Copy();
    var summary := Summarize(report.records);
    if summary.Err? {
      return Err(summary.error);
    }
    return Ok((report, summary.value));
  }

  /** `check_drift_alert`: fires when the drift percentage reaches the
      threshold; the threshold itself fires. */
  function CheckDriftAlert(driftSummary: DriftSummary, featureDriftThreshold: real := DefaultAlertThreshold): (alert: bool)
    ensures alert <==> featureDriftThreshold <= driftSummary.driftPercentage
  {
    driftSummary.driftPercentage >= featureDriftThreshold
  }

  /** An alert at one threshold fires at every lower threshold. */
  lemma AlertMonotoneInThreshold(s: DriftSummary, t: real, t': real)
    requires t' <= t && CheckDriftAlert(s, t)
    ensures CheckDriftAlert(s, t')
  {
  }

  /** The boundary, reached through the summariser: one drifted feature
      out of ten is exactly 10 percent and alerts at the default threshold;
      one out of eleven is 9.09 percent and does not. */
  lemma AlertAtBoundary(tenRows: seq<FeatureDrift>, elevenRows: seq<FeatureDrift>)
    requires |tenRows| == 10 && CountDrifted(tenRows) == 1
    requires |elevenRows| == 11 && CountDrifted(elevenRows) == 1
    ensures Summarize(tenRows) == Ok(DriftSummary(10, 1, 10.0))
    ensures CheckDriftAlert(Summarize(tenRows).value)
    ensures Summarize(elevenRows) == Ok(DriftSummary(11, 1, 9.09))
    ensures !CheckDriftAlert(Summarize(elevenRows).value)
  {
    assert 100.0 * (100.0 * 1 as real / 10 as real) == 1000 as real;
    RoundHalfEvenOfInteger(1000);
    var x := 100.0 * (100.0 * 1 as real / 11 as real);
    assert 909.0 <= x < 909.5;
    assert RoundHalfEven(x) == 909;
  }

  /** Ten features of which three drift: 30 percent, which alerts at the
      default threshold but not at 31. */
  lemma ThreeOfTenDrifted(rows: seq<FeatureDrift>)
    requires |rows| == 10 && CountDrifted(rows) == 3
    ensures Summarize(rows) == Ok(DriftSummary(10, 3, 30.0))
    ensures CheckDriftAlert(Summarize(rows).value, DefaultAlertThreshold)
    ensures !CheckDriftAlert(Summarize(rows).value, 31.0)
  {
    assert 100.0 * (100.0 * 3 as real / 10 as real) == 3000 as real;
    RoundHalfEvenOfInteger(3000);
  }

  /** Through the whole pipeline: raising the significance level never
      lowers the number of drifted features or the percentage, so an alert
      raised at one level is raised at every larger one. */
  lemma AlertMonotoneInSignificance(r1: seq<FeatureDrift>, r2: seq<FeatureDrift>, baseline: Table,
                                    production: Table, t1: real, t2: real, ks: KsTest,
                                    featureDriftThreshold: real)
    requires baseline.Valid() && |baseline.columns| > 0 && t1 <= t2
    requires IsFeatureReport(r1, baseline, production, t1, ks)
    requires IsFeatureReport(r2, baseline, production, t2, ks)
    ensures Summarize(r1).Ok? && Summarize(r2).Ok?
    ensures Summarize(r1).value.driftedFeatures <= Summarize(r2).value.driftedFeatures
    ensures Summarize(r1).value.driftPercentage <= Summarize(r2).value.driftPercentage
    ensures CheckDriftAlert(Summarize(r1).value, featureDriftThreshold) ==>
            CheckDriftAlert(Summarize(r2).value, featureDriftThreshold)
  {
    FlagMonotoneInThreshold(r1, r2, baseline, production, t1, t2, ks);
    CountDriftedMonotone(r1, r2);
    DriftPercentageMonotone(CountDrifted(r1), CountDrifted(r2), |r1|);
  }
}
