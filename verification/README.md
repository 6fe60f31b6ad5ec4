# Wind-turbine anomaly detection and prioritisation — a Dafny model

This project models the detection pass of a predictive-maintenance pipeline for
wind turbines (`scripts/detection_anomalie.py`). The pass works on one table of
sensor and maintenance records and runs four steps:

1. **Prediction attachment.** When a classifier is loaded and the five feature
   columns are present, it adds a predicted 7-day failure label
   (`prediction_panne_7j`) and a failure probability (`proba_panne`) to every row.
2. **Outlier detection.** It scans every numeric column except identifiers,
   maintenance flags, ground truth and predictions. For each such column it
   takes Q1 and Q3 by linear interpolation and builds the Tukey fences
   `Q1 − 1.5·IQR` and `Q3 + 1.5·IQR`. It tags a row `lower`, `upper` or
   `zero_detection_issue` for that column.
3. **Merge and summary.** It concatenates the tagged rows into one anomaly
   table. When that table is non-empty it also computes the per-type counts and
   the total.
4. **Worklist.** It keeps the anomalies whose `maintenance_done` is 0 and sorts
   them by `proba_panne`, highest first.

Each step has its own module:

- `Tables` — the table: a schema (column name → numeric or not) and rows
  (column name → cell).
- `Prediction` — attaching the classifier's outputs. The classifier is a value
  holding two functions.
- `Sorting` and `Quantile` — the insertion sort, the linear-interpolation
  quantile and the fences.
- `Detection` and `DetectionProperties` — per-column tagging, the merged anomaly
  table, and its laws.
- `Summary` — the detection statistics.
- `Worklist` — the maintenance filter and the ranking.
- `Pipeline` — one whole run. It returns a report instead of writing files.

Sensor values are exact reals. The classifier, the column iteration order and
the loaded-or-missing state of the model file are parameters.

### Behaviour on the error paths

- **Missing classifier file.** The script catches `FileNotFoundError` and
  continues without predictions (lines 27-29). The model has `model == None`.
- **Missing feature column.** When one of the five features is absent, the
  script skips prediction and continues (lines 36, 46-47). The model leaves
  the table unchanged.
- **Empty anomaly table.** The script starts from an empty `DataFrame`
  (line 64). When no column adds anything, that frame has no columns, and
  `anomalies['maintenance_done']` raises `KeyError` (lines 116-117).
  `BuildWorklist` returns `KeyError("maintenance_done")` in this case.
- **No probability column.** The script sorts on `proba_panne` (lines
  121-123). When no prediction ran and the input has no such column, this
  raises `KeyError`. The model returns `KeyError("proba_panne")`. There is no
  other ranking to fall back on.
- **Ties.** `sort_values` is not a stable sort. The model promises nothing
  about the order of equal probabilities.

## Model

| member | source | states |
|---|---|---|
| `Detection.EligibleColumns` | scripts/detection_anomalie.py:51-62 | the scanned columns are exactly the numeric columns minus the six excluded names. The laws about it are in `Detection.Detect` (every anomaly column is one of them), `DetectionProperties.FlaggedIff` (every one of them is scanned) and `DetectionProperties.PredictionKeepsEligible` (prediction does not change them) |
| `Detection.TripsCases` | scripts/detection_anomalie.py:73-75 | against ordered fences a reading trips `lower` alone, `upper` alone, `zero_detection_issue` alone, zero together with upper exactly when the upper fence is negative, or nothing. It trips nothing exactly when it is non-zero, not strictly between 0 and the lower fence, and not above the upper fence |
| `Prediction.FeatureVector` | scripts/detection_anomalie.py:34-37 | the classifier input has one cell per feature, in the order of `FEATURES`, each taken from that feature's column of the row |
| `Prediction.Annotate` | scripts/detection_anomalie.py:39-44 | a row gains exactly the label and probability columns. The label is the classifier's 0/1 class and the probability lies in [0, 1], both computed from the row's own feature vector. Every other cell is kept |
| `Sorting.SortBy` | scripts/detection_anomalie.py:67-68 | the result is ordered by the key and is a permutation (same multiset) of the input — the ordering the quantile computation reads |
| `Sorting.Insert` | scripts/detection_anomalie.py:67-68 | inserting into an ordered sequence keeps it ordered and adds exactly the one element |
| `Quantile.VirtualIndex` | scripts/detection_anomalie.py:67-68 | the virtual index (n − 1)·q of a level in [0, 1] lies within the sample's index range |
| `Quantile.Interpolate` | scripts/detection_anomalie.py:67-68 | the interpolated value between two consecutive order statistics lies between them |
| `Quantile.InterpolateMonotone` | scripts/detection_anomalie.py:67-68 | moving further between two order statistics never yields a smaller value |
| `Quantile.Lerp` | scripts/detection_anomalie.py:67-68 | the interpolated value lies between the order statistics at floor(h) and floor(h) + 1, and equals the last one when h is the last index |
| `Quantile.QuantileOfSorted` | scripts/detection_anomalie.py:67-68 | the linear-interpolation quantile of a non-empty ascending sample lies between its minimum and maximum |
| `Quantile.QuantileMonotone` | scripts/detection_anomalie.py:67-68 | a larger quantile level never gives a smaller quantile, so Q1 ≤ Q3 |
| `Quantile.LerpMonotone` | scripts/detection_anomalie.py:67-68 | interpolation between order statistics never decreases as the virtual index grows |
| `Quantile.QuartilesOf` | scripts/detection_anomalie.py:67-69 | min ≤ Q1 ≤ Q3 ≤ max over the column's values, hence IQR ≥ 0 |
| `Quantile.SortedEnds` | scripts/detection_anomalie.py:67-68 | the first and last elements of a sorted permutation are the sample's minimum and maximum |
| `Quantile.FencesOf` | scripts/detection_anomalie.py:69-71 | lower ≤ Q1 ≤ Q3 ≤ upper, and the fences are four IQRs apart |
| `Detection.ColumnFences` | scripts/detection_anomalie.py:66-71 | a column's fences are ordered: lower ≤ upper |
| `Prediction.AttachPredictions` | scripts/detection_anomalie.py:33-47 | with no classifier or a missing feature the table is unchanged. Otherwise each row, in order, gets exactly one label and one probability computed from its own feature vector. All other cells, the row count and well-formedness are kept, and both new columns are numeric |
| `DetectionProperties.PredictionKeepsEligible` | scripts/detection_anomalie.py:43-62 | attaching predictions never changes the set of scanned columns, because both new columns are excluded |
| `Detection.Tag` | scripts/detection_anomalie.py:73-92 | the tagged copies are exactly the rows whose reading trips the kind, each as often as it occurs in the input, tagged with the column and kind |
| `Detection.DetectColumn` | scripts/detection_anomalie.py:66-92 | every anomaly of one column is an input row tagged with that column |
| `Detection.Detect` | scripts/detection_anomalie.py:51-95 | every merged anomaly is an unchanged input row, and its `anomaly_column` is a numeric input column that is not one of the six excluded names |
| `DetectionProperties.DetectColumnMultiplicity` | scripts/detection_anomalie.py:73-92 | a column's anomaly list holds (row, c, kind) once per occurrence of the row if its value trips that kind, and never otherwise |
| `DetectionProperties.DetectMultiplicity` | scripts/detection_anomalie.py:66-95 | the merged table holds each flagged (row, column, kind) once per occurrence of the row and nothing else; there is no deduplication across columns |
| `DetectionProperties.DetectSplit` | scripts/detection_anomalie.py:94-95 | the merged table's multiplicities are the first column's plus those of the remaining columns |
| `DetectionProperties.FlaggedStep` | scripts/detection_anomalie.py:62-66 | with distinct columns, a flag on the first column cannot also come from the rest, and "flagged somewhere" splits into first column or rest |
| `DetectionProperties.DetectContents` | scripts/detection_anomalie.py:66-95 | the multiplicity law holds for every anomaly, and every merged row fits the table's schema |
| `DetectionProperties.FlaggedIff` | scripts/detection_anomalie.py:62-95 | for a complete column order, an anomaly is in the merged table iff its row is an input row and its value in an eligible column trips its kind |
| `DetectionProperties.TagKinds` | scripts/detection_anomalie.py:73-92 | over the three tag lists of one column, a (row, c, kind) record occurs once per occurrence of the row if its reading trips that kind, and never otherwise |
| `DetectionProperties.KindIff` | scripts/detection_anomalie.py:62-95 | for any kind, (row, c, kind) is merged iff the row is an input row, c is eligible and the reading trips that kind against the column's fences |
| `DetectionProperties.LowerIff` | scripts/detection_anomalie.py:73-82 | (row, c, lower) is merged iff c is eligible, the row is an input row and 0 < v < lower |
| `DetectionProperties.UpperIff` | scripts/detection_anomalie.py:74-87 | (row, c, upper) is merged iff c is eligible, the row is an input row and v > upper |
| `DetectionProperties.ZeroIff` | scripts/detection_anomalie.py:75-92 | (row, c, zero_detection_issue) is merged iff c is eligible, the row is an input row and v == 0, whatever the fences are |
| `DetectionProperties.NeverLowerAndZero` | scripts/detection_anomalie.py:73-75 | no row is tagged both lower and zero for the same column |
| `DetectionProperties.NeverLowerAndUpper` | scripts/detection_anomalie.py:69-74 | no row is tagged both lower and upper for the same column, because lower ≤ upper |
| `DetectionProperties.ZeroIsUpperIffFenceNegative` | scripts/detection_anomalie.py:74-75 | a zero reading of an input row in an eligible column is always tagged `zero_detection_issue`, and is also tagged `upper` exactly when the column's upper fence is negative |
| `DetectionProperties.TagLength` | scripts/detection_anomalie.py:73-75 | the tagged copies of one kind number as many as the rows whose reading trips it |
| `DetectionProperties.RowFlagsSplit` | scripts/detection_anomalie.py:73-75 | counting, per row, the kinds its reading trips gives \|lower\| + \|upper\| + \|zero\| |
| `DetectionProperties.DetectLength` | scripts/detection_anomalie.py:77-95 | the merged length is the sum over scanned columns of \|lower\| + \|upper\| + \|zero\| |
| `Summary.CountType` | scripts/detection_anomalie.py:101 | a kind's count never exceeds the number of anomalies |
| `Summary.CountTypeExtremes` | scripts/detection_anomalie.py:101 | a kind's count is 0 exactly when no anomaly has that kind, and equals the table length exactly when every anomaly has it |
| `Summary.Tally` | scripts/detection_anomalie.py:101-102 | the statistics map holds the total, holds a kind's key exactly when its count is positive (as `value_counts` omits absent values), reads each kind's count back (absent = 0) and has no other keys |
| `Summary.DetectionStats` | scripts/detection_anomalie.py:99-112 | no statistics exactly when the merged table is empty. Otherwise the total equals the merged length, and a type key is present iff that type occurs, holding its count. The only other key is the total |
| `Summary.TypeCountsSum` | scripts/detection_anomalie.py:101-102 | the counts of the three anomaly types add up to the merged length |
| `Summary.StatsAddUp` | scripts/detection_anomalie.py:99-102 | in written statistics the per-type counts (absent = 0) sum to `total_anomalies_detectees` |
| `Worklist.UnresolvedReading` | scripts/detection_anomalie.py:116-117 | in a numeric `maintenance_done` column, an anomaly is unresolved exactly when its reading is 0 |
| `Worklist.KeepUnresolved` | scripts/detection_anomalie.py:116-118 | each anomaly with `maintenance_done == 0` is kept as often as it occurs, and every other anomaly is dropped |
| `Worklist.Rank` | scripts/detection_anomalie.py:121-123 | the result is a permutation of its input, ordered by non-increasing `proba_panne` |
| `Worklist.BuildWorklist` | scripts/detection_anomalie.py:116-123 | it fails exactly when the table is empty, `maintenance_done` is absent or `proba_panne` is absent or not numeric. Otherwise the worklist is a permutation of exactly the unresolved anomalies, ordered by non-increasing probability |
| `Pipeline.PredictedSchema` | scripts/detection_anomalie.py:33-47 | after prediction both the filter column and a numeric probability column exist; without prediction the table is the input itself |
| `Pipeline.Run` | scripts/detection_anomalie.py:32-123 | this is the end-to-end law. The merged table's multiplicities and length are as above, and statistics exist iff it is non-empty, matching its counts. With a classifier and all features, the worklist fails only on an empty anomaly table. Without predictions and with no `proba_panne` in the input it always fails. On success it is the ranked set of unresolved anomalies |

## Left out

- File and console I/O is not modelled, for the reason in the last column:

  | what | lines | reason |
  |---|---|---|
  | CSV reading and the hard-coded paths | 8-22 | the input arrives as a `Table` value |
  | Loading the classifier | 24-29 | it arrives as an `Option<Classifier>` value |
  | Writing the statistics, including the try/except around it | 104-110 | the statistics are returned in the `Report` |
  | Writing the worklist CSV | 125-130 | the worklist is returned in the `Report` |
  | Printing and display formatting | throughout | no effect on the results |

- Classifier internals (`joblib.load`, `predict`, `predict_proba`) are not
  modelled. The classifier is two functions of one row's feature vector, so the
  model assumes the prediction is row-wise. The probability function is assumed
  to return a value in [0, 1], as `predict_proba` does.
- Floating-point rounding, NaN and missing values are not modelled. Readings are
  exact reals and every cell is present.
- When the detection step sees a table with no rows, the model follows pandas:
  the quantiles are NaN and every comparison is false, so there are no
  anomalies. The script reaches that step with no rows only when no prediction
  ran (see the classifier line below).
- Pandas dtypes are reduced to "numeric or not". The label is the integer
  class 0 or 1, stored as a real.
- The classifier is total: the model applies it to every table that has the
  five feature columns. The script's `model_A.predict` (line 39) goes through
  scikit-learn's input validation, which rejects a feature matrix with no
  rows. On an input with the five features but no rows the script stops
  there. The model instead returns a report with no anomalies, no statistics
  and the worklist error `KeyError("maintenance_done")`.
- Column order, the order of JSON keys and the CSV layout are not modelled.
- The order in which eligible columns are visited comes from a Python `set`
  (line 62). It is a parameter, required to list each eligible column once.
- An anomaly is a separate record (row, column, kind) rather than two extra
  columns. An input column that already happens to be called `anomaly_column`
  or `anomaly_type` would be overwritten by pandas; the model does not
  represent that.
- `BuildWorklist`: when `proba_panne` exists but is not numeric, pandas would
  sort its strings. The model returns `NonNumericSortKey` instead. This can
  only happen when the input file itself carries a text `proba_panne` column
  and no prediction ran.
- `Worklist.Rank`: the model promises nothing about how equal probabilities are
  ordered, because `sort_values` is not stable.
- `if model_A:` is modelled as "a classifier was loaded". Truthiness of the
  loaded object is assumed.
- `scripts/streamlit_app.py` (the dashboard), `scripts/main.py`
  (orchestration), `scripts/test_model.py` (evaluation metrics) and
  `scripts/trie_du_csv.py` (the preliminary sort by turbine and date) are not
  part of this model.
