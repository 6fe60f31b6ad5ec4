/** Attaching the failure classifier's output to every row
    (scripts/detection_anomalie.py, step 2). The classifier itself is an
    opaque artifact: it is represented only by what it computes per row. */
module Prediction {
  import opened Wrappers
  import opened Tables

  /** The feature columns the classifier was trained on, in its input order. */
  const Features: seq<string> :=
    ["wind_speed", "vibration_level", "temperature", "power_output", "maintenance_done"]

  /** Column receiving the predicted 0/1 label. */
  const LabelColumn: string := "prediction_panne_7j"

  /** Column receiving the probability of the failure class. */
  const ProbaColumn: string := "proba_panne"

  type Probability = p: real | 0.0 <= p <= 1.0

  /** A predicted class of the binary target `failure_within_7d`. */
  type Label = l: int | 0 <= l <= 1

  /** The loaded classifier: its label and its positive-class probability,
      each a function of one row's feature vector. */
  datatype Classifier = Classifier(predict: seq<Cell> -> Label, probability: seq<Cell> -> Probability)

  /** Every feature is a column of the table. */
  predicate HasFeatures(t: Table) {
    forall f :: f in Features ==> f in t.schema
  }

  /** The row's feature cells, in the classifier's feature order. */
  function FeatureVector(r: Row): (v: seq<Cell>)
    requires forall f :: f in Features ==> f in r
    ensures |v| == |Features|
    ensures forall k :: 0 <= k < |Features| ==> v[k] == r[Features[k]]
  {
    seq(|Features|, k requires 0 <= k < |Features| => r[Features[k]])
  }

  /** One row with the classifier's label and probability for its own
      feature vector added; every other cell is kept. */
  function Annotate(m: Classifier, r: Row): (a: Row)
    requires forall f :: f in Features ==> f in r
    ensures a.Keys == r.Keys + {LabelColumn, ProbaColumn}
    ensures a[LabelColumn] == Num(m.predict(FeatureVector(r)) as real)
    ensures a[LabelColumn].x == 0.0 || a[LabelColumn].x == 1.0
    ensures a[ProbaColumn] == Num(m.probability(FeatureVector(r)))
    ensures 0.0 <= a[ProbaColumn].x <= 1.0
    ensures forall c :: c in r && c != LabelColumn && c != ProbaColumn ==> a[c] == r[c]
  {
    var v := FeatureVector(r);
    r[LabelColumn := Num(m.predict(v) as real)][ProbaColumn := Num(m.probability(v))]
  }

  /** Adds the label and probability columns when a classifier is loaded and
      all features are present; otherwise the table is left as it is. */
  function AttachPredictions(t: Table, model: Option<Classifier>): (r: Table)
    requires WellFormed(t)
    ensures WellFormed(r)
    ensures |r.rows| == |t.rows|
    ensures model.None? || !HasFeatures(t) ==> r == t
    ensures model.Some? && HasFeatures(t) ==>
      && r.schema.Keys == t.schema.Keys + {LabelColumn, ProbaColumn}
      && IsNumericColumn(r, LabelColumn) && IsNumericColumn(r, ProbaColumn)
      && (forall c :: c in t.schema && c != LabelColumn && c != ProbaColumn ==> r.schema[c] == t.schema[c])
      && forall i :: 0 <= i < |t.rows| ==>
           var v := FeatureVector(t.rows[i]);
           && r.rows[i].Keys == t.rows[i].Keys + {LabelColumn, ProbaColumn}
           && r.rows[i][LabelColumn] == Num(model.value.predict(v) as real)
           && r.rows[i][ProbaColumn] == Num(model.value.probability(v))
           && forall c :: c in t.rows[i] && c != LabelColumn && c != ProbaColumn ==> r.rows[i][c] == t.rows[i][c]
  {
    if model.None? || !HasFeatures(t) then t
    else
      var m := model.value;
      var rows := seq(|t.rows|, i requires 0 <= i < |t.rows| =>
        assert RowFits(t.rows[i], t.schema);
        Annotate(m, t.rows[i]));
      var r := Table(t.schema[LabelColumn := Numeric][ProbaColumn := Numeric], rows);
      assert WellFormed(r) by {
        forall i | 0 <= i < |rows|
          ensures RowFits(rows[i], r.schema)
        {
          assert RowFits(t.rows[i], t.schema);
        }
      }
      r
  }
}
