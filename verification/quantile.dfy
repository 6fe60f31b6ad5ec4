/** Linear-interpolation quantiles (numpy's default "linear" method, which
    pandas' `Series.quantile` uses) and the interquartile fences built on them. */
module Quantile {
  import opened Sorting

  function Identity(x: real): real { x }

  /** `v` is a smallest element of `vals`. */
  ghost predicate IsMin(vals: seq<real>, v: real) {
    v in vals && forall k :: 0 <= k < |vals| ==> v <= vals[k]
  }

  /** `v` is a largest element of `vals`. */
  ghost predicate IsMax(vals: seq<real>, v: real) {
    v in vals && forall k :: 0 <= k < |vals| ==> vals[k] <= v
  }

  /** The virtual index (n - 1) * q of the q-quantile in a sample of size n. */
  function VirtualIndex(n: nat, q: real): (h: real)
    requires n > 0 && 0.0 <= q <= 1.0
    ensures 0.0 <= h <= (n - 1) as real
  {
    var m := (n - 1) as real;
    assert m * q <= m * 1.0;
    m * q
  }

  /** Linear interpolation at virtual index `h` of an ascending sample: the
      order statistic at floor(h), moved towards its successor by the
      fractional part of h. */
  function Lerp(s: seq<real>, h: real): (r: real)
    requires 0.0 <= h <= (|s| - 1) as real && SortedBy(s, Identity)
    ensures s[h.Floor] <= r
    ensures h.Floor + 1 < |s| ==> r <= s[h.Floor + 1]
    ensures h.Floor + 1 == |s| ==> r == s[h.Floor]
  {
    var lo := h.Floor;
    if lo + 1 < |s| then
      assert Identity(s[lo]) <= Identity(s[lo + 1]);
      Interpolate(s[lo], s[lo + 1], h - lo as real)
    else
      s[lo]
  }

  /** The point a fraction `t` of the way from `a` to `b`. */
  function Interpolate(a: real, b: real, t: real): (r: real)
    requires a <= b && 0.0 <= t <= 1.0
    ensures a <= r <= b
  {
    var d := b - a;
    Scale(t, d);
    a + t * d
  }

  /** Moving further along the segment never goes back. */
  lemma InterpolateMonotone(a: real, b: real, t1: real, t2: real)
    requires a <= b && 0.0 <= t1 <= t2 <= 1.0
    ensures Interpolate(a, b, t1) <= Interpolate(a, b, t2)
  {
    var d := b - a;
    NonNegProduct(t2 - t1, d);
    assert t2 * d == t1 * d + (t2 - t1) * d;
  }

  lemma Scale(t: real, d: real)
    requires 0.0 <= t <= 1.0 && 0.0 <= d
    ensures 0.0 <= t * d <= d
  {
    assert t * d <= 1.0 * d;
  }

  lemma NonNegProduct(x: real, y: real)
    requires 0.0 <= x && 0.0 <= y
    ensures 0.0 <= x * y
  {
  }

  /** Interpolation never decreases as the virtual index grows. */
  lemma LerpMonotone(s: seq<real>, h1: real, h2: real)
    requires 0.0 <= h1 <= h2 <= (|s| - 1) as real && SortedBy(s, Identity)
    ensures Lerp(s, h1) <= Lerp(s, h2)
  {
    var lo1, lo2 := h1.Floor, h2.Floor;
    if lo1 == lo2 {
      if lo1 + 1 < |s| {
        assert Identity(s[lo1]) <= Identity(s[lo1 + 1]);
        InterpolateMonotone(s[lo1], s[lo1 + 1], h1 - lo1 as real, h2 - lo2 as real);
      }
    } else {
      assert Identity(s[lo1 + 1]) <= Identity(s[lo2]);
    }
  }

  /** The q-quantile of an ascending sample (numpy's "linear" method). */
  function QuantileOfSorted(s: seq<real>, q: real): (r: real)
    requires |s| > 0 && 0.0 <= q <= 1.0 && SortedBy(s, Identity)
    ensures s[0] <= r <= s[|s| - 1]
  {
    var h := VirtualIndex(|s|, q);
    var r := Lerp(s, h);
    assert Identity(s[0]) <= Identity(s[h.Floor]);
    assert h.Floor + 1 < |s| ==> Identity(s[h.Floor + 1]) <= Identity(s[|s| - 1]);
    r
  }

  lemma VirtualIndexMonotone(n: nat, q1: real, q2: real)
    requires n > 0 && 0.0 <= q1 <= q2 <= 1.0
    ensures VirtualIndex(n, q1) <= VirtualIndex(n, q2)
  {
    var m := (n - 1) as real;
    NonNegProduct(m, q2 - q1);
    assert m * q2 == m * q1 + m * (q2 - q1);
  }

  /** A larger q never yields a smaller quantile. */
  lemma QuantileMonotone(s: seq<real>, q1: real, q2: real)
    requires |s| > 0 && 0.0 <= q1 <= q2 <= 1.0 && SortedBy(s, Identity)
    ensures QuantileOfSorted(s, q1) <= QuantileOfSorted(s, q2)
  {
    VirtualIndexMonotone(|s|, q1, q2);
    LerpMonotone(s, VirtualIndex(|s|, q1), VirtualIndex(|s|, q2));
  }

  /** The first and third quartiles of a non-empty sample. */
  datatype Quartiles = Quartiles(q1: real, q3: real)

  /** Q1 and Q3 taken over the ascending order of `vals`; both lie between the
      sample's minimum and maximum and Q1 never exceeds Q3. */
  function QuartilesOf(vals: seq<real>): (q: Quartiles)
    requires |vals| > 0
    ensures exists lo :: IsMin(vals, lo) && lo <= q.q1
    ensures exists hi :: IsMax(vals, hi) && q.q3 <= hi
    ensures q.q1 <= q.q3
  {
    var s := SortBy(vals, Identity);
    var q1 := QuantileOfSorted(s, 0.25);
    var q3 := QuantileOfSorted(s, 0.75);
    QuantileMonotone(s, 0.25, 0.75);
    SortedEnds(vals, s);
    Quartiles(q1, q3)
  }

  /** The ends of a sorted permutation are the sample's minimum and maximum. */
  lemma SortedEnds(vals: seq<real>, s: seq<real>)
    requires |vals| > 0 && multiset(s) == multiset(vals) && SortedBy(s, Identity)
    ensures IsMin(vals, s[0]) && IsMax(vals, s[|s| - 1])
  {
    assert |s| == |multiset(s)| == |vals|;
    assert s[0] in multiset(vals) && s[|s| - 1] in multiset(vals);
    forall k | 0 <= k < |vals|
      ensures s[0] <= vals[k] <= s[|s| - 1]
    {
      assert vals[k] in multiset(s);
      var m :| 0 <= m < |s| && s[m] == vals[k];
      assert Identity(s[0]) <= Identity(s[m]) <= Identity(s[|s| - 1]);
    }
  }

  /** Tukey fences: values strictly outside [lower, upper] are outliers. */
  datatype Fences = Fences(lower: real, upper: real)

  /** Fences at 1.5 interquartile ranges below Q1 and above Q3. They enclose
      both quartiles, so lower <= upper always holds. */
  function FencesOf(q: Quartiles): (f: Fences)
    requires q.q1 <= q.q3
    ensures f.lower <= q.q1 <= q.q3 <= f.upper
    ensures f.upper - f.lower == 4.0 * (q.q3 - q.q1)
  {
    var iqr := q.q3 - q.q1;
    Fences(q.q1 - 1.5 * iqr, q.q3 + 1.5 * iqr)
  }
}
