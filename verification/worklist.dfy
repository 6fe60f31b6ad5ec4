/** The final worklist (scripts/detection_anomalie.py, lines 116-123): the
    anomalies with no recorded maintenance, highest failure probability
    first. */
module Worklist {
  import opened Wrappers
  import opened Sorting
  import opened Tables
  import opened Prediction
  import opened Detection

  const MaintenanceColumn: string := "maintenance_done"

  /** Why the worklist step raises instead of producing a table. */
  datatype Error =
    | KeyError(column: string)        // the column is not in the anomaly table
    | NonNumericSortKey(column: string) // the sort column does not hold numbers

  /** No maintenance is recorded for the anomalous row (`maintenance_done == 0`). */
  predicate Unresolved(a: Anomaly) {
    MaintenanceColumn in a.row && a.row[MaintenanceColumn] == Num(0.0)
  }

  /** In a numeric `maintenance_done` column, `anomalies['maintenance_done'] == 0`
      selects exactly the rows whose reading is zero. */
  lemma UnresolvedReading(schema: map<string, Kind>, a: Anomaly)
    requires RowFits(a.row, schema) && MaintenanceColumn in schema && schema[MaintenanceColumn] == Numeric
    ensures MaintenanceColumn in a.row && a.row[MaintenanceColumn].Num?
    ensures Unresolved(a) <==> ValueAt(a.row, MaintenanceColumn) == 0.0
  {
  }

  predicate HasProbability(a: Anomaly) {
    ProbaColumn in a.row && a.row[ProbaColumn].Num?
  }

  function FailureProbability(a: Anomaly): real
    requires HasProbability(a)
  {
    a.row[ProbaColumn].x
  }

  /** Sort key placing higher failure probabilities first; it is only ever
      applied to anomalies that carry a probability. */
  function Urgency(a: Anomaly): real {
    if HasProbability(a) then -FailureProbability(a) else 0.0
  }

  /** The unresolved anomalies, each kept as often as it occurs; the
      resolved ones are all dropped. */
  function KeepUnresolved(anoms: seq<Anomaly>): (r: seq<Anomaly>)
    ensures forall a :: multiset(r)[a] == (if Unresolved(a) then multiset(anoms)[a] else 0)
  {
    if |anoms| == 0 then []
    else
      assert anoms == [anoms[0]] + anoms[1..];
      (if Unresolved(anoms[0]) then [anoms[0]] else []) + KeepUnresolved(anoms[1..])
  }

  /** `sort_values(by='proba_panne', ascending=False)`: a permutation ordered
      by non-increasing probability (ties in no particular order). */
  function Rank(anoms: seq<Anomaly>): (r: seq<Anomaly>)
    requires forall a :: a in anoms ==> HasProbability(a)
    ensures multiset(r) == multiset(anoms)
    ensures forall a :: a in r ==> HasProbability(a)
    ensures forall i, j :: 0 <= i < j < |r| ==> FailureProbability(r[i]) >= FailureProbability(r[j])
  {
    var r := SortBy(anoms, Urgency);
    forall a | a in r
      ensures HasProbability(a)
    {
      assert a in multiset(r);
    }
    forall i, j | 0 <= i < j < |r|
      ensures FailureProbability(r[i]) >= FailureProbability(r[j])
    {
      assert Urgency(r[i]) <= Urgency(r[j]);
    }
    r
  }

  /** `w` holds exactly the unresolved entries of `anoms`, each as often as
      there, every one with a probability, by non-increasing probability. */
  ghost predicate RankedUnresolved(w: seq<Anomaly>, anoms: seq<Anomaly>) {
    && (forall a :: multiset(w)[a] == (if Unresolved(a) then multiset(anoms)[a] else 0))
    && (forall a :: a in w ==> Unresolved(a) && HasProbability(a))
    && (forall i, j :: 0 <= i < j < |w| ==> FailureProbability(w[i]) >= FailureProbability(w[j]))
  }

  /** Filters and ranks the merged anomaly table, or reports the KeyError
      pandas raises: an empty table has no columns at all, and the filter and
      sort columns must exist. */
  function BuildWorklist(schema: map<string, Kind>, anoms: seq<Anomaly>): (r: Result<seq<Anomaly>, Error>)
    requires forall a :: a in anoms ==> RowFits(a.row, schema)
    ensures r.Failure? <==>
      |anoms| == 0 || MaintenanceColumn !in schema || ProbaColumn !in schema || schema[ProbaColumn] != Numeric
    ensures r.Failure? && (|anoms| == 0 || MaintenanceColumn !in schema) ==> r.error == KeyError(MaintenanceColumn)
    ensures r.Success? ==> RankedUnresolved(r.value, anoms)
  {
    if |anoms| == 0 || MaintenanceColumn !in schema then Failure(KeyError(MaintenanceColumn))
    else if ProbaColumn !in schema then Failure(KeyError(ProbaColumn))
    else if schema[ProbaColumn] != Numeric then Failure(NonNumericSortKey(ProbaColumn))
    else
      var kept := KeepUnresolved(anoms);
      forall a | a in kept
        ensures a in anoms && HasProbability(a)
      {
        assert a in multiset(kept);
        assert a in multiset(anoms);
        assert RowFits(a.row, schema);
      }
      var r := Rank(kept);
      assert forall a :: a in r ==> a in multiset(kept);
      Success(r)
  }
}
