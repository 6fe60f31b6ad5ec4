/** One run of the detection script over an in-memory table: attach
    predictions, scan every eligible column, summarise, then filter and rank
    (scripts/detection_anomalie.py, lines 32-123). Reading the CSV, loading
    the classifier and writing the two result files are left to the caller:
    the classifier arrives as a value, the outputs leave as the report. */
module Pipeline {
  import opened Wrappers
  import opened Tables
  import opened Prediction
  import opened Detection
  import opened DetectionProperties
  import opened Summary
  import opened Worklist

  datatype Report = Report(
    table: Table,                          // the input with predictions attached, if any
    anomalies: seq<Anomaly>,               // the merged anomaly table
    stats: Option<map<string, nat>>,       // detection_stats.json, if written
    worklist: Result<seq<Anomaly>, Error>) // anomalies_non_gerees_final.csv, or the raised error

  /** The whole pass. `order` is the iteration order of the eligible-column
      set, which the script draws from a Python set. */
  function Run(input: Table, model: Option<Classifier>, order: seq<string>): (r: Report)
    requires WellFormed(input)
    requires IsEnumeration(order, EligibleColumns(input))
    ensures WellFormed(r.table) && |r.table.rows| == |input.rows|
    ensures EligibleColumns(r.table) == EligibleColumns(input)
    // the anomaly table: each flagged (row, column, kind) once per occurrence of the row
    ensures forall a :: multiset(r.anomalies)[a] == (if FlaggedIn(r.table, order, a) then multiset(r.table.rows)[a.row] else 0)
    ensures |r.anomalies| == FlagCount(r.table, order)
    // the summary is computed before filtering and exists only for a non-empty table
    ensures r.stats.None? <==> |r.anomalies| == 0
    ensures r.stats.Some? ==> Summarises(r.stats.value, r.anomalies)
    // with a classifier and every feature, the worklist fails only on an empty anomaly table
    ensures model.Some? && HasFeatures(input) ==> (r.worklist.Failure? <==> |r.anomalies| == 0)
    // without predictions, sorting on the absent probability column raises
    ensures (model.None? || !HasFeatures(input)) && ProbaColumn !in input.schema ==> r.worklist.Failure?
    ensures r.worklist.Success? ==> RankedUnresolved(r.worklist.value, r.anomalies)
  {
    var t := AttachPredictions(input, model);
    PredictionKeepsEligible(input, model);
    var anoms := Detect(t, order);
    DetectContents(t, order);
    DetectLength(t, order);
    PredictedSchema(input, model);
    Report(t, anoms, DetectionStats(anoms), BuildWorklist(t.schema, anoms))
  }

  /** With predictions attached the filter and sort columns both exist;
      without them the table is the input itself. */
  lemma PredictedSchema(input: Table, model: Option<Classifier>)
    requires WellFormed(input)
    ensures var t := AttachPredictions(input, model);
      && (model.Some? && HasFeatures(input) ==> MaintenanceColumn in t.schema && IsNumericColumn(t, ProbaColumn))
      && (model.None? || !HasFeatures(input) ==> t == input)
  {
    assert MaintenanceColumn in Features;
  }
}
