/** The detection statistics saved before filtering
    (scripts/detection_anomalie.py, lines 99-112): a count per observed
    `anomaly_type` plus the total, or nothing at all when no anomaly exists. */
module Summary {
  import opened Wrappers
  import opened Detection

  /** The key holding the total number of anomalies. */
  const TotalKey: string := "total_anomalies_detectees"

  /** Number of anomalies of kind `k`. */
  function CountType(anoms: seq<Anomaly>, k: AnomalyType): (n: nat)
    ensures n <= |anoms|
  {
    if |anoms| == 0 then 0
    else (if anoms[0].kind == k then 1 else 0) + CountType(anoms[1..], k)
  }

  /** A kind has count 0 exactly when no anomaly has it, and count |anoms|
      exactly when every anomaly has it. */
  lemma {:induction false} CountTypeExtremes(anoms: seq<Anomaly>, k: AnomalyType)
    ensures CountType(anoms, k) == 0 <==> forall i :: 0 <= i < |anoms| ==> anoms[i].kind != k
    ensures CountType(anoms, k) == |anoms| <==> forall i :: 0 <= i < |anoms| ==> anoms[i].kind == k
  {
    if |anoms| > 0 {
      CountTypeExtremes(anoms[1..], k);
      assert forall i :: 1 <= i < |anoms| ==> anoms[i] == anoms[1..][i - 1];
    }
  }

  /** The count stored under `key`, or 0 when the key is absent (how the
      dashboard reads the file). */
  function CountOr0(stats: map<string, nat>, key: string): nat {
    if key in stats then stats[key] else 0
  }

  /** `stats` holds the total and, for each kind that occurs, its count. */
  ghost predicate Summarises(stats: map<string, nat>, anoms: seq<Anomaly>) {
    && TotalKey in stats && stats[TotalKey] == |anoms|
    && (forall k :: TypeLabel(k) in stats <==> CountType(anoms, k) > 0)
    && (forall k :: CountOr0(stats, TypeLabel(k)) == CountType(anoms, k))
    && (forall key :: key in stats ==> key == TotalKey || exists k :: key == TypeLabel(k))
  }

  /** The four statistics keys are different strings: they differ in their
      first letter. */
  lemma KeysDistinct()
    ensures TotalKey != TypeLabel(Lower) && TotalKey != TypeLabel(Upper) && TotalKey != TypeLabel(ZeroDetectionIssue)
    ensures forall k1, k2 :: TypeLabel(k1) == TypeLabel(k2) ==> k1 == k2
  {
    assert TotalKey[0] == 't';
    assert TypeLabel(Lower)[0] == 'l' && TypeLabel(Upper)[0] == 'u' && TypeLabel(ZeroDetectionIssue)[0] == 'z';
  }

  /** The statistics map for the given per-kind counts: a kind's key is
      present only when its count is positive, and the total is always there. */
  function Tally(nl: nat, nu: nat, nz: nat, total: nat): (m: map<string, nat>)
    ensures TotalKey in m && m[TotalKey] == total
    ensures (TypeLabel(Lower) in m <==> nl > 0) && CountOr0(m, TypeLabel(Lower)) == nl
    ensures (TypeLabel(Upper) in m <==> nu > 0) && CountOr0(m, TypeLabel(Upper)) == nu
    ensures (TypeLabel(ZeroDetectionIssue) in m <==> nz > 0) && CountOr0(m, TypeLabel(ZeroDetectionIssue)) == nz
    ensures forall key :: key in m ==>
      key == TotalKey || key == TypeLabel(Lower) || key == TypeLabel(Upper) || key == TypeLabel(ZeroDetectionIssue)
  {
    KeysDistinct();
    var m := map[];
    var m := if nl > 0 then m[TypeLabel(Lower) := nl] else m;
    var m := if nu > 0 then m[TypeLabel(Upper) := nu] else m;
    var m := if nz > 0 then m[TypeLabel(ZeroDetectionIssue) := nz] else m;
    m[TotalKey := total]
  }

  /** `value_counts()` of the anomaly types plus the total; `None` when the
      anomaly table is empty, so that no file is written. */
  function DetectionStats(anoms: seq<Anomaly>): (r: Option<map<string, nat>>)
    ensures r.None? <==> |anoms| == 0
    ensures r.Some? ==> Summarises(r.value, anoms)
  {
    if |anoms| == 0 then None
    else
      var m := Tally(CountType(anoms, Lower), CountType(anoms, Upper), CountType(anoms, ZeroDetectionIssue), |anoms|);
      SummarisesByKind(anoms, m);
      Some(m)
  }

  /** Facts about the three kinds one by one give the summary law for every
      kind. */
  lemma SummarisesByKind(anoms: seq<Anomaly>, m: map<string, nat>)
    requires TotalKey in m && m[TotalKey] == |anoms|
    requires (TypeLabel(Lower) in m <==> CountType(anoms, Lower) > 0) && CountOr0(m, TypeLabel(Lower)) == CountType(anoms, Lower)
    requires (TypeLabel(Upper) in m <==> CountType(anoms, Upper) > 0) && CountOr0(m, TypeLabel(Upper)) == CountType(anoms, Upper)
    requires (TypeLabel(ZeroDetectionIssue) in m <==> CountType(anoms, ZeroDetectionIssue) > 0)
      && CountOr0(m, TypeLabel(ZeroDetectionIssue)) == CountType(anoms, ZeroDetectionIssue)
    requires forall key :: key in m ==>
      key == TotalKey || key == TypeLabel(Lower) || key == TypeLabel(Upper) || key == TypeLabel(ZeroDetectionIssue)
    ensures Summarises(m, anoms)
  {
    forall k
      ensures (TypeLabel(k) in m <==> CountType(anoms, k) > 0) && CountOr0(m, TypeLabel(k)) == CountType(anoms, k)
    {
      match k
      case Lower =>
      case Upper =>
      case ZeroDetectionIssue =>
    }
    forall key | key in m
      ensures key == TotalKey || exists k :: key == TypeLabel(k)
    {
      if key == TypeLabel(Lower) {
        assert key == TypeLabel(Lower);
      } else if key == TypeLabel(Upper) {
        assert key == TypeLabel(Upper);
      } else if key == TypeLabel(ZeroDetectionIssue) {
        assert key == TypeLabel(ZeroDetectionIssue);
      }
    }
  }

  /** Every anomaly has exactly one of the three kinds. */
  lemma {:induction false} TypeCountsSum(anoms: seq<Anomaly>)
    ensures CountType(anoms, Lower) + CountType(anoms, Upper) + CountType(anoms, ZeroDetectionIssue) == |anoms|
  {
    if |anoms| > 0 {
      TypeCountsSum(anoms[1..]);
    }
  }

  /** In a written summary the per-type counts add up to the total. */
  lemma StatsAddUp(anoms: seq<Anomaly>)
    requires |anoms| > 0
    ensures var stats := DetectionStats(anoms).value;
      CountOr0(stats, TypeLabel(Lower)) + CountOr0(stats, TypeLabel(Upper))
        + CountOr0(stats, TypeLabel(ZeroDetectionIssue)) == stats[TotalKey]
  {
    TypeCountsSum(anoms);
    assert Summarises(DetectionStats(anoms).value, anoms);
  }
}
