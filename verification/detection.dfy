/** Per-column outlier detection with Tukey fences and the exact-zero rule,
    and the merge of every column's findings into one anomaly table
    (scripts/detection_anomalie.py, step 3). */
module Detection {
  import opened Sorting
  import opened Quantile
  import opened Tables
  import opened Prediction

  /** Identifier, maintenance, ground-truth and prediction columns: never a
      source of sensor anomalies. */
  const Excluded: set<string> :=
    {"turbine_id", "maintenance_done", "failure_within_7d", "time_to_failure_days", LabelColumn, ProbaColumn}

  /** The numeric columns that are scanned for anomalies. */
  function EligibleColumns(t: Table): (cols: set<string>)
    ensures forall c :: c in cols <==> IsNumericColumn(t, c) && c !in Excluded
  {
    set c | c in t.schema && t.schema[c] == Numeric && c !in Excluded
  }

  /** `order` lists every column of `cols` exactly once: one iteration order
      of the eligible-column set. */
  predicate IsEnumeration(order: seq<string>, cols: set<string>) {
    && (forall i :: 0 <= i < |order| ==> order[i] in cols)
    && (forall c :: c in cols ==> c in order)
    && (forall i, j :: 0 <= i < j < |order| ==> order[i] != order[j])
  }

  datatype AnomalyType = Lower | Upper | ZeroDetectionIssue

  /** The `anomaly_type` value written for each kind. */
  function TypeLabel(k: AnomalyType): string {
    match k
    case Lower => "lower"
    case Upper => "upper"
    case ZeroDetectionIssue => "zero_detection_issue"
  }

  /** One row of the merged anomaly table: an unchanged input row tagged with
      the column that triggered it (`anomaly_column`) and the kind
      (`anomaly_type`). */
  datatype Anomaly = Anomaly(row: Row, column: string, kind: AnomalyType)

  /** Whether value `v` is an anomaly of kind `k` against fences `f`. */
  predicate Trips(k: AnomalyType, v: real, f: Fences) {
    match k
    case Lower => v < f.lower && v > 0.0
    case Upper => v > f.upper
    case ZeroDetectionIssue => v == 0.0
  }

  /** Against ordered fences a reading trips no kind, `lower` alone, `upper`
      alone, `zero_detection_issue` alone, or `zero_detection_issue` together
      with `upper` (only when the upper fence is negative). */
  lemma TripsCases(v: real, f: Fences)
    requires f.lower <= f.upper
    ensures Trips(Lower, v, f) ==> !Trips(Upper, v, f) && !Trips(ZeroDetectionIssue, v, f)
    ensures Trips(ZeroDetectionIssue, v, f) ==> (Trips(Upper, v, f) <==> f.upper < 0.0)
    ensures !Trips(Lower, v, f) && !Trips(Upper, v, f) && !Trips(ZeroDetectionIssue, v, f) <==>
      (v < 0.0 || 0.0 < v) && (v >= f.lower || v <= 0.0) && v <= f.upper
  {
  }

  /** The fences of column `c`, from the quartiles of all its values. */
  function ColumnFences(t: Table, c: string): (f: Fences)
    requires WellFormed(t) && IsNumericColumn(t, c) && |t.rows| > 0
    ensures f.lower <= f.upper
  {
    NumericColumnIsNumeric(t, c);
    FencesOf(QuartilesOf(ColumnValues(t.rows, c)))
  }

  /** Anomaly `a` is tagged `(c, k)` and its row's value in column `c`
      trips kind `k`. */
  ghost predicate Qualifies(a: Anomaly, c: string, k: AnomalyType, f: Fences) {
    a.column == c && a.kind == k && c in a.row && a.row[c].Num? && Trips(k, ValueAt(a.row, c), f)
  }

  /** The rows whose value in column `c` trips kind `k`, in row order, each
      tagged with `c` and `k`. Every qualifying row appears as many times as
      it occurs in `rows`, and nothing else appears. */
  function Tag(rows: seq<Row>, c: string, k: AnomalyType, f: Fences): (r: seq<Anomaly>)
    requires NumericIn(rows, c)
    ensures forall a :: a in r ==> a.row in rows && a.column == c && a.kind == k
    ensures forall a :: multiset(r)[a] == (if Qualifies(a, c, k, f) then multiset(rows)[a.row] else 0)
  {
    if |rows| == 0 then []
    else
      var rest := Tag(rows[1..], c, k, f);
      var head := if Trips(k, ValueAt(rows[0], c), f) then [Anomaly(rows[0], c, k)] else [];
      assert rows == [rows[0]] + rows[1..];
      head + rest
  }

  /** All anomalies of one column: its lower, then upper, then zero rows. An
      empty table has no quartiles (pandas yields NaN) and so no anomalies. */
  function DetectColumn(t: Table, c: string): (r: seq<Anomaly>)
    requires WellFormed(t) && IsNumericColumn(t, c)
    ensures forall a :: a in r ==> a.row in t.rows && a.column == c
  {
    if |t.rows| == 0 then []
    else
      NumericColumnIsNumeric(t, c);
      var f := ColumnFences(t, c);
      Tag(t.rows, c, Lower, f) + Tag(t.rows, c, Upper, f) + Tag(t.rows, c, ZeroDetectionIssue, f)
  }

  /** The merged anomaly table: every column's anomalies, concatenated in
      column-iteration order. Each entry is an input row tagged with an
      eligible column. */
  function Detect(t: Table, order: seq<string>): (r: seq<Anomaly>)
    requires WellFormed(t)
    requires forall i :: 0 <= i < |order| ==> order[i] in EligibleColumns(t)
    ensures forall a :: a in r ==>
      && a.row in t.rows
      && a.column in order
      && a.column !in Excluded
      && IsNumericColumn(t, a.column)
  {
    if |order| == 0 then []
    else
      var c := order[0];
      assert c in EligibleColumns(t);
      var rest := Detect(t, order[1..]);
      DetectColumn(t, c) + rest
  }
}

module DetectionProperties {
  import opened Wrappers
  import opened Quantile
  import opened Tables
  import opened Prediction
  import opened Detection

  /** `a` is row `a.row` of `t` whose value in column `c` trips `a.kind`. */
  ghost predicate FlaggedInColumn(t: Table, c: string, a: Anomaly)
    requires WellFormed(t) && IsNumericColumn(t, c)
  {
    && a.column == c
    && a.row in t.rows
    && Trips(a.kind, Reading(t, a.row, c), ColumnFences(t, c))
  }

  /** `a` is flagged in one of the listed columns. */
  ghost predicate FlaggedIn(t: Table, order: seq<string>, a: Anomaly)
    requires WellFormed(t)
    requires forall i :: 0 <= i < |order| ==> order[i] in EligibleColumns(t)
  {
    a.column in order && IsNumericColumn(t, a.column) && FlaggedInColumn(t, a.column, a)
  }

  /** Of the three kind lists of a column, only the one of `a`'s own kind
      can hold `a`. */
  lemma TagKinds(rows: seq<Row>, c: string, f: Fences, a: Anomaly)
    requires NumericIn(rows, c)
    ensures multiset(Tag(rows, c, Lower, f))[a] + multiset(Tag(rows, c, Upper, f))[a]
      + multiset(Tag(rows, c, ZeroDetectionIssue, f))[a]
      == (if Qualifies(a, c, a.kind, f) then multiset(rows)[a.row] else 0)
  {
    match a.kind
    case Lower =>
      assert !Qualifies(a, c, Upper, f) && !Qualifies(a, c, ZeroDetectionIssue, f);
    case Upper =>
      assert !Qualifies(a, c, Lower, f) && !Qualifies(a, c, ZeroDetectionIssue, f);
    case ZeroDetectionIssue =>
      assert !Qualifies(a, c, Lower, f) && !Qualifies(a, c, Upper, f);
  }

  /** How often `a` occurs among one column's anomalies. */
  lemma DetectColumnMultiplicity(t: Table, c: string, a: Anomaly)
    requires WellFormed(t) && IsNumericColumn(t, c)
    ensures multiset(DetectColumn(t, c))[a] == (if FlaggedInColumn(t, c, a) then multiset(t.rows)[a.row] else 0)
  {
    if |t.rows| > 0 {
      NumericColumnIsNumeric(t, c);
      var f := ColumnFences(t, c);
      var l, u, z := Tag(t.rows, c, Lower, f), Tag(t.rows, c, Upper, f), Tag(t.rows, c, ZeroDetectionIssue, f);
      assert multiset(DetectColumn(t, c))[a] == multiset(l)[a] + multiset(u)[a] + multiset(z)[a] by {
        assert DetectColumn(t, c) == l + u + z;
      }
      TagKinds(t.rows, c, f, a);
      if a.row in t.rows {
        MemberFits(t, a.row);
        assert FlaggedInColumn(t, c, a) <==> Qualifies(a, c, a.kind, f);
      } else {
        assert multiset(t.rows)[a.row] == 0;
      }
    }
  }

  /** The merged table holds each flagged (row, column, kind) once per
      occurrence of the row in the input, and nothing else: no
      deduplication across columns, no row invented or altered. */
  lemma {:induction false} DetectMultiplicity(t: Table, order: seq<string>, a: Anomaly)
    requires WellFormed(t)
    requires forall i :: 0 <= i < |order| ==> order[i] in EligibleColumns(t)
    requires forall i, j :: 0 <= i < j < |order| ==> order[i] != order[j]
    ensures multiset(Detect(t, order))[a] == (if FlaggedIn(t, order, a) then multiset(t.rows)[a.row] else 0)
  {
    if |order| > 0 {
      FlaggedStep(t, order, a);
      DetectSplit(t, order, a);
      DetectColumnMultiplicity(t, order[0], a);
      DetectMultiplicity(t, order[1..], a);
    }
  }

  lemma DetectSplit(t: Table, order: seq<string>, a: Anomaly)
    requires WellFormed(t) && |order| > 0
    requires forall i :: 0 <= i < |order| ==> order[i] in EligibleColumns(t)
    ensures IsNumericColumn(t, order[0])
    ensures multiset(Detect(t, order))[a] == multiset(DetectColumn(t, order[0]))[a] + multiset(Detect(t, order[1..]))[a]
  {
    assert order[0] in EligibleColumns(t);
  }

  /** Splits "flagged in some listed column" into the first column and the rest. */
  lemma FlaggedStep(t: Table, order: seq<string>, a: Anomaly)
    requires WellFormed(t) && |order| > 0
    requires forall i :: 0 <= i < |order| ==> order[i] in EligibleColumns(t)
    requires forall i, j :: 0 <= i < j < |order| ==> order[i] != order[j]
    ensures IsNumericColumn(t, order[0])
    ensures forall i :: 0 <= i < |order[1..]| ==> order[1..][i] in EligibleColumns(t)
    ensures forall i, j :: 0 <= i < j < |order[1..]| ==> order[1..][i] != order[1..][j]
    ensures FlaggedInColumn(t, order[0], a) ==> !FlaggedIn(t, order[1..], a)
    ensures FlaggedIn(t, order, a) <==> FlaggedInColumn(t, order[0], a) || FlaggedIn(t, order[1..], a)
  {
    assert order[0] in EligibleColumns(t);
    if a.column == order[0] {
      assert a.column !in order[1..];
    } else {
      assert a.column in order <==> a.column in order[1..];
    }
  }

  /** The multiplicity law for every anomaly at once, and the rows of the
      merged table fit the input's schema. */
  lemma DetectContents(t: Table, order: seq<string>)
    requires WellFormed(t)
    requires forall i :: 0 <= i < |order| ==> order[i] in EligibleColumns(t)
    requires forall i, j :: 0 <= i < j < |order| ==> order[i] != order[j]
    ensures forall a :: multiset(Detect(t, order))[a] == (if FlaggedIn(t, order, a) then multiset(t.rows)[a.row] else 0)
    ensures forall a :: a in Detect(t, order) ==> RowFits(a.row, t.schema)
  {
    forall a
      ensures multiset(Detect(t, order))[a] == (if FlaggedIn(t, order, a) then multiset(t.rows)[a.row] else 0)
    {
      DetectMultiplicity(t, order, a);
    }
    forall a | a in Detect(t, order)
      ensures RowFits(a.row, t.schema)
    {
      MemberFits(t, a.row);
    }
  }

  /** Membership in the merged table, for a complete column order. */
  lemma FlaggedIff(t: Table, order: seq<string>, a: Anomaly)
    requires WellFormed(t) && IsEnumeration(order, EligibleColumns(t))
    ensures a in Detect(t, order) <==> FlaggedIn(t, order, a)
    ensures a.column in order <==> a.column in EligibleColumns(t)
  {
    DetectMultiplicity(t, order, a);
    assert a in Detect(t, order) <==> multiset(Detect(t, order))[a] > 0;
    if a.row in t.rows {
      assert multiset(t.rows)[a.row] > 0;
    }
  }

  /** Membership of one (row, column, kind) triple, for a complete column order. */
  lemma KindIff(t: Table, order: seq<string>, row: Row, c: string, k: AnomalyType)
    requires WellFormed(t) && IsEnumeration(order, EligibleColumns(t))
    ensures Anomaly(row, c, k) in Detect(t, order) <==>
      row in t.rows && c in EligibleColumns(t) && Trips(k, Reading(t, row, c), ColumnFences(t, c))
  {
    FlaggedIff(t, order, Anomaly(row, c, k));
  }

  /** A row is tagged (c, lower) exactly when its reading in the eligible
      column c is positive and strictly below the lower fence. */
  lemma LowerIff(t: Table, order: seq<string>, row: Row, c: string)
    requires WellFormed(t) && IsEnumeration(order, EligibleColumns(t))
    ensures Anomaly(row, c, Lower) in Detect(t, order) <==>
      row in t.rows && c in EligibleColumns(t) && 0.0 < Reading(t, row, c) < ColumnFences(t, c).lower
  {
    KindIff(t, order, row, c, Lower);
  }

  /** A row is tagged (c, upper) exactly when its reading in the eligible
      column c is strictly above the upper fence. */
  lemma UpperIff(t: Table, order: seq<string>, row: Row, c: string)
    requires WellFormed(t) && IsEnumeration(order, EligibleColumns(t))
    ensures Anomaly(row, c, Upper) in Detect(t, order) <==>
      row in t.rows && c in EligibleColumns(t) && Reading(t, row, c) > ColumnFences(t, c).upper
  {
    KindIff(t, order, row, c, Upper);
  }

  /** A row is tagged (c, zero_detection_issue) exactly when its reading in
      the eligible column c is exactly zero, whatever the fences are. */
  lemma ZeroIff(t: Table, order: seq<string>, row: Row, c: string)
    requires WellFormed(t) && IsEnumeration(order, EligibleColumns(t))
    ensures Anomaly(row, c, ZeroDetectionIssue) in Detect(t, order) <==>
      row in t.rows && c in EligibleColumns(t) && Reading(t, row, c) == 0.0
  {
    KindIff(t, order, row, c, ZeroDetectionIssue);
  }

  /** The positivity guard keeps zeros out of the lower kind. */
  lemma NeverLowerAndZero(t: Table, order: seq<string>, row: Row, c: string)
    requires WellFormed(t) && IsEnumeration(order, EligibleColumns(t))
    ensures !(Anomaly(row, c, Lower) in Detect(t, order) && Anomaly(row, c, ZeroDetectionIssue) in Detect(t, order))
  {
    LowerIff(t, order, row, c);
    ZeroIff(t, order, row, c);
  }

  /** The fences are ordered, so no reading is both below and above them. */
  lemma NeverLowerAndUpper(t: Table, order: seq<string>, row: Row, c: string)
    requires WellFormed(t) && IsEnumeration(order, EligibleColumns(t))
    ensures !(Anomaly(row, c, Lower) in Detect(t, order) && Anomaly(row, c, Upper) in Detect(t, order))
  {
    LowerIff(t, order, row, c);
    UpperIff(t, order, row, c);
  }

  /** A zero reading is an upper anomaly as well exactly when the column's
      upper fence is negative. */
  lemma ZeroIsUpperIffFenceNegative(t: Table, order: seq<string>, row: Row, c: string)
    requires WellFormed(t) && IsEnumeration(order, EligibleColumns(t))
    requires row in t.rows && c in EligibleColumns(t) && Reading(t, row, c) == 0.0
    ensures Anomaly(row, c, ZeroDetectionIssue) in Detect(t, order)
    ensures Anomaly(row, c, Upper) in Detect(t, order) <==> ColumnFences(t, c).upper < 0.0
  {
    ZeroIff(t, order, row, c);
    UpperIff(t, order, row, c);
  }

  /** Attaching predictions never changes which columns are scanned: the two
      new columns are excluded ones. */
  lemma PredictionKeepsEligible(t: Table, model: Option<Classifier>)
    requires WellFormed(t)
    ensures EligibleColumns(AttachPredictions(t, model)) == EligibleColumns(t)
  {
    var r := AttachPredictions(t, model);
    forall c
      ensures c in EligibleColumns(r) <==> c in EligibleColumns(t)
    {
      if c == LabelColumn || c == ProbaColumn {
        assert c in Excluded;
      }
    }
  }

  /** Number of kinds a reading trips against fences `f`. */
  function KindsTripped(v: real, f: Fences): nat {
    (if Trips(Lower, v, f) then 1 else 0) + (if Trips(Upper, v, f) then 1 else 0)
      + (if Trips(ZeroDetectionIssue, v, f) then 1 else 0)
  }

  /** Number of rows whose reading in column `c` trips kind `k`. */
  function CountKind(rows: seq<Row>, c: string, k: AnomalyType, f: Fences): nat
    requires NumericIn(rows, c)
  {
    if |rows| == 0 then 0
    else (if Trips(k, ValueAt(rows[0], c), f) then 1 else 0) + CountKind(rows[1..], c, k, f)
  }

  /** Sum over the rows of the number of kinds each row trips in column `c`. */
  function RowFlags(rows: seq<Row>, c: string, f: Fences): nat
    requires NumericIn(rows, c)
  {
    if |rows| == 0 then 0 else KindsTripped(ValueAt(rows[0], c), f) + RowFlags(rows[1..], c, f)
  }

  /** Sum over the listed columns of each column's row flags. */
  function FlagCount(t: Table, order: seq<string>): nat
    requires WellFormed(t)
    requires forall i :: 0 <= i < |order| ==> order[i] in EligibleColumns(t)
  {
    if |order| == 0 || |t.rows| == 0 then 0
    else
      assert order[0] in EligibleColumns(t);
      NumericColumnIsNumeric(t, order[0]);
      RowFlags(t.rows, order[0], ColumnFences(t, order[0])) + FlagCount(t, order[1..])
  }

  lemma {:induction false} TagLength(rows: seq<Row>, c: string, k: AnomalyType, f: Fences)
    requires NumericIn(rows, c)
    ensures |Tag(rows, c, k, f)| == CountKind(rows, c, k, f)
  {
    if |rows| > 0 {
      TagLength(rows[1..], c, k, f);
    }
  }

  lemma {:induction false} RowFlagsSplit(rows: seq<Row>, c: string, f: Fences)
    requires NumericIn(rows, c)
    ensures RowFlags(rows, c, f) == CountKind(rows, c, Lower, f) + CountKind(rows, c, Upper, f)
      + CountKind(rows, c, ZeroDetectionIssue, f)
  {
    if |rows| > 0 {
      RowFlagsSplit(rows[1..], c, f);
    }
  }

  /** The merged table has one entry per (row, listed column, kind tripped):
      its length is the sum over columns of |lower| + |upper| + |zero|. */
  lemma {:induction false} DetectLength(t: Table, order: seq<string>)
    requires WellFormed(t)
    requires forall i :: 0 <= i < |order| ==> order[i] in EligibleColumns(t)
    ensures |Detect(t, order)| == FlagCount(t, order)
  {
    if |order| > 0 {
      var c := order[0];
      assert c in EligibleColumns(t);
      DetectLength(t, order[1..]);
      if |t.rows| > 0 {
        NumericColumnIsNumeric(t, c);
        var f := ColumnFences(t, c);
        TagLength(t.rows, c, Lower, f);
        TagLength(t.rows, c, Upper, f);
        TagLength(t.rows, c, ZeroDetectionIssue, f);
        RowFlagsSplit(t.rows, c, f);
      }
    }
  }
}
