/** Feature and prediction drift: a two-sample Kolmogorov-Smirnov test per
    column, and the strict significance rule that turns its p-value into a
    drift flag. The test itself is a parameter: its numerics are not part of
    this model. */
module DriftDetection {
  import opened Tables

  const DefaultThreshold: real := 0.05

  /** What the two-sample test returns: the statistic and its p-value. */
  datatype KsOutcome = KsOutcome(statistic: real, pValue: real)

  /** The two-sample Kolmogorov-Smirnov test, left uninterpreted. */
  type KsTest = (seq<real>, seq<real>) -> KsOutcome

  /** One record of the feature drift table. */
  datatype FeatureDrift = FeatureDrift(feature: string, ksStatistic: real, pValue: real, driftDetected: bool)

  /** The record `detect_prediction_drift` returns. */
  datatype PredictionDrift = PredictionDrift(ksStatistic: real, pValue: real, driftDetected: bool)

  /** `row` is what the comparator records for baseline column `name`. */
  ghost predicate RowFor(row: FeatureDrift, name: string, baseline: Table, production: Table,
                         threshold: real, ks: KsTest)
    requires name in baseline.data && name in production.data
  {
    var outcome := ks(baseline.data[name], production.data[name]);
    && row.feature == name
    && row.ksStatistic == outcome.statistic
    && row.pValue == outcome.pValue
    && row.driftDetected == (outcome.pValue < threshold)
  }

  /** The drift table for `baseline` against `production`: one row per
      baseline column, in the baseline's column order, each holding the
      test's unchanged outcome for that column and the flag
      `p_value < threshold`. */
  ghost predicate IsFeatureReport(rows: seq<FeatureDrift>, baseline: Table, production: Table,
                                  threshold: real, ks: KsTest)
    requires baseline.Valid()
  {
    && |rows| == |baseline.columns|
    && forall i :: 0 <= i < |rows| ==>
         && baseline.columns[i] in production.data
         && RowFor(rows[i], baseline.columns[i], baseline, production, threshold, ks)
  }

  /** `detect_feature_drift`. Indexing production by a baseline column it
      lacks raises, at the first such column in baseline order. */
  method DetectFeatureDrift(ks: KsTest, xBaseline: Table, xProduction: Table, threshold: real := DefaultThreshold)
    returns (r: Result<seq<FeatureDrift>>)
    requires xBaseline.Valid()
    ensures r.Ok? <==> forall c :: c in xBaseline.data ==> c in xProduction.data
    ensures r.Ok? ==> IsFeatureReport(r.value, xBaseline, xProduction, threshold, ks)
    ensures r.Err? ==>
      exists i :: 0 <= i < |xBaseline.columns|
        && r.error == MissingColumn(xBaseline.columns[i])
        && xBaseline.columns[i] !in xProduction.data
        && forall j :: 0 <= j < i ==> xBaseline.columns[j] in xProduction.data
  {
    var driftResults: seq<FeatureDrift> := [];
    for k := 0 to |xBaseline.columns|
      invariant |driftResults| == k
      invariant forall j :: 0 <= j < k ==>
        && xBaseline.columns[j] in xProduction.data
        && RowFor(driftResults[j], xBaseline.columns[j], xBaseline, xProduction, threshold, ks)
    {
      var feature := xBaseline.columns[k];
      var baseValues := xBaseline.data[feature];
      if feature !in xProduction.data {
        return Err(MissingColumn(feature));
      }
      var prodValues := xProduction.data[feature];
      var outcome := ks(baseValues, prodValues);
      var driftDetected := outcome.pValue < threshold;
      driftResults := driftResults + [FeatureDrift(feature, outcome.statistic, outcome.pValue, driftDetected)];
    }
    return Ok(driftResults);
  }

  /** The drift table is determined by its inputs. */
  lemma FeatureReportUnique(r1: seq<FeatureDrift>, r2: seq<FeatureDrift>, baseline: Table,
                            production: Table, threshold: real, ks: KsTest)
    requires baseline.Valid()
    requires IsFeatureReport(r1, baseline, production, threshold, ks)
    requires IsFeatureReport(r2, baseline, production, threshold, ks)
    ensures r1 == r2
  {
    assert forall i :: 0 <= i < |r1| ==> r1[i] == r2[i];
  }

  /** Production columns that the baseline lacks are never examined: the
      table depends on production only through the baseline's columns. */
  lemma ExtraProductionColumnsIgnored(rows: seq<FeatureDrift>, baseline: Table, p1: Table, p2: Table,
                                      threshold: real, ks: KsTest)
    requires baseline.Valid()
    requires forall c :: c in baseline.data ==>
      (c in p1.data <==> c in p2.data) && (c in p1.data ==> p1.data[c] == p2.data[c])
    requires IsFeatureReport(rows, baseline, p1, threshold, ks)
    ensures IsFeatureReport(rows, baseline, p2, threshold, ks)
  {
    forall i | 0 <= i < |rows|
      ensures baseline.columns[i] in p2.data
      ensures RowFor(rows[i], baseline.columns[i], baseline, p2, threshold, ks)
    {
      assert baseline.columns[i] in baseline.data;
    }
  }

  /** A feature flagged at one significance level is flagged at every
      larger one, and a p-value equal to the level is never flagged. */
  lemma FlagMonotoneInThreshold(r1: seq<FeatureDrift>, r2: seq<FeatureDrift>, baseline: Table,
                                production: Table, t1: real, t2: real, ks: KsTest)
    requires baseline.Valid() && t1 <= t2
    requires IsFeatureReport(r1, baseline, production, t1, ks)
    requires IsFeatureReport(r2, baseline, production, t2, ks)
    ensures |r1| == |r2|
    ensures forall i :: 0 <= i < |r1| ==> r1[i].pValue == r2[i].pValue && r1[i].ksStatistic == r2[i].ksStatistic
    ensures forall i :: 0 <= i < |r1| ==> r1[i].driftDetected ==> r2[i].driftDetected
    ensures forall i :: 0 <= i < |r1| && r1[i].pValue == t1 ==> !r1[i].driftDetected
  {
    forall i | 0 <= i < |r1|
      ensures r1[i].pValue == r2[i].pValue && r1[i].ksStatistic == r2[i].ksStatistic
      ensures r1[i].driftDetected ==> r2[i].driftDetected
    {
      assert RowFor(r1[i], baseline.columns[i], baseline, production, t1, ks);
      assert RowFor(r2[i], baseline.columns[i], baseline, production, t2, ks);
    }
  }

  /** `detect_prediction_drift`: the positive-class probabilities that the
      model assigns to the scaled baseline and production features are
      compared with the same strict rule. Scaling and prediction are
      parameters. */
  function DetectPredictionDrift(transform: Table -> seq<seq<real>>,
                                 predictPositive: seq<seq<real>> -> seq<real>,
                                 ks: KsTest, xBaseline: Table, xProduction: Table,
                                 threshold: real := DefaultThreshold): (r: PredictionDrift)
    ensures var outcome := ks(predictPositive(transform(xBaseline)), predictPositive(transform(xProduction)));
      && r.ksStatistic == outcome.statistic && r.pValue == outcome.pValue
      && (r.driftDetected <==> outcome.pValue < threshold)
  {
    var basePreds := predictPositive(transform(xBaseline));
    var prodPreds := predictPositive(transform(xProduction));
    var outcome := ks(basePreds, prodPreds);
    PredictionDrift(outcome.statistic, outcome.pValue, outcome.pValue < threshold)
  }

  /** A frame with the single column `name`. */
  function SingleColumn(name: string, values: seq<real>): (t: Table)
    ensures t.Valid()
  {
    Table([name], map[name := values], |values|)
  }

  /** Prediction drift is feature drift on a one-column frame of model
      scores: the feature comparator's only row carries the same statistic,
      p-value and flag. */
  lemma PredictionDriftIsOneFeatureDrift(transform: Table -> seq<seq<real>>,
                                         predictPositive: seq<seq<real>> -> seq<real>,
                                         xBaseline: Table, xProduction: Table,
                                         threshold: real, ks: KsTest,
                                         name: string, rows: seq<FeatureDrift>)
    requires var base := SingleColumn(name, predictPositive(transform(xBaseline)));
      var prod := SingleColumn(name, predictPositive(transform(xProduction)));
      IsFeatureReport(rows, base, prod, threshold, ks)
    ensures var p := DetectPredictionDrift(transform, predictPositive, ks, xBaseline, xProduction, threshold);
      rows == [FeatureDrift(name, p.ksStatistic, p.pValue, p.driftDetected)]
  {
    var base := SingleColumn(name, predictPositive(transform(xBaseline)));
    var prod := SingleColumn(name, predictPositive(transform(xProduction)));
    assert RowFor(rows[0], name, base, prod, threshold, ks);
  }
}
