/**
 * The scoring side of `calibrate.py`: the metrics computed from one row of
 * validation counts, the filters that may veto a score, and `apply_filter`,
 * which wraps a metric in a filter.
 */
module Metrics {
  import opened Wrappers

  /** One row of the validation data: a tag, a candidate threshold and the confusion counts there. */
  datatype Row = Row(tag: string, threshold: real, tp: real, fp: real, tn: real, fn: real)

  /** Counts as they come from counting: none negative. */
  predicate Counts(row: Row) {
    0.0 <= row.tp && 0.0 <= row.fp && 0.0 <= row.tn && 0.0 <= row.fn
  }

  /** The built-in metrics; `FBeta` is what `f_score(beta)` returns. */
  datatype Metric = Cti | J | P4 | FBeta(beta: real)

  /** The filter factories: `score_filter`, `pr_filter`, `threshold_filter`, `tag_filter`. */
  datatype Filter =
    | MinScore(minScore: real)
    | MinPrecisionRecall(minPrecision: real, minRecall: real)
    | ThresholdRange(minThreshold: real, maxThreshold: real)
    | BlockTags(blocked: set<string>)

  // ---------------------------------------------------------------- metrics

  /** `cti_metric`: the critical success index tp / (tp + fp + fn), or 0 without true positives. */
  function CtiMetric(tp: real, fp: real, fn: real): (r: real)
    requires tp != 0.0 ==> tp + fp + fn != 0.0
    ensures tp == 0.0 ==> r == 0.0
    ensures tp != 0.0 ==> r * (tp + fp + fn) == tp
    ensures 0.0 <= tp && 0.0 <= fp && 0.0 <= fn ==> 0.0 <= r <= 1.0
  {
    if tp != 0.0 then Ratio(tp, tp + fp + fn) else 0.0
  }

  /** A quotient of a non-negative part by a whole at least as large lies in [0, 1]. */
  function Ratio(part: real, whole: real): (r: real)
    requires whole != 0.0
    ensures r * whole == part
    ensures 0.0 <= part <= whole ==> 0.0 <= r <= 1.0
    ensures part == whole ==> r == 1.0
  {
    if 0.0 <= part <= whole then
      DivBounds(part, whole);
      part / whole
    else part / whole
  }

  /** `j_metric`: Youden's J, sensitivity plus specificity minus one. */
  function JMetric(tp: real, fp: real, tn: real, fn: real): (r: real)
    requires tp != 0.0 ==> tp + fn != 0.0
    requires tn != 0.0 ==> tn + fp != 0.0
    ensures 0.0 <= tp && 0.0 <= fp && 0.0 <= tn && 0.0 <= fn ==> -1.0 <= r <= 1.0
    ensures fp == 0.0 && fn == 0.0 && tp != 0.0 && tn != 0.0 ==> r == 1.0
  {
    (if tp != 0.0 then Ratio(tp, tp + fn) else 0.0) + (if tn != 0.0 then Ratio(tn, tn + fp) else 0.0) - 1.0
  }

  /** `p4_metric`: 4·tp·tn / (4·tp·tn + (tp + tn)(fp + fn)), or 0 when the product vanishes. */
  function P4Metric(tp: real, fp: real, tn: real, fn: real): (r: real)
    requires 4.0 * tp * tn != 0.0 ==> 4.0 * tp * tn + (tp + tn) * (fp + fn) != 0.0
    ensures 4.0 * tp * tn == 0.0 ==> r == 0.0
    ensures 0.0 <= tp && 0.0 <= fp && 0.0 <= tn && 0.0 <= fn ==> 0.0 <= r <= 1.0
    ensures fp + fn == 0.0 && 4.0 * tp * tn != 0.0 ==> r == 1.0
  {
    var n := 4.0 * tp * tn;
    if n != 0.0 then
      assert 0.0 <= tp && 0.0 <= fp && 0.0 <= tn && 0.0 <= fn ==> 0.0 <= (tp + tn) * (fp + fn);
      Ratio(n, n + (tp + tn) * (fp + fn))
    else 0.0
  }

  /** `f_score(beta)`: rejects a non-positive beta, otherwise the F-beta metric. */
  function FScore(beta: real): (r: Result<Metric, string>)
    ensures r.Err? <==> beta <= 0.0
    ensures r.Err? ==> r.error == "beta must be positive"
    ensures r.Ok? ==> r.value == FBeta(beta) && ValidMetric(r.value)
    ensures r.Ok? ==> forall row :: Counts(row) ==>
      MetricDefined(r.value, row) && 0.0 <= MetricValue(r.value, row) <= 1.0
  {
    if beta <= 0.0 then Err("beta must be positive")
    else
      assert forall row :: Counts(row) ==> MetricDefined(FBeta(beta), row) by {
        forall row | Counts(row) ensures MetricDefined(FBeta(beta), row) {
          CountsDefined(FBeta(beta), row);
        }
      }
      Ok(FBeta(beta))
  }

  /**
   * The F-beta metric is the weighted harmonic mean of the precision `p` and
   * the recall `q` whenever there is a true positive:
   * F·(beta²·p + q) = (1 + beta²)·p·q.
   */
  lemma FBetaHarmonic(beta: real, row: Row, p: real, q: real)
    requires beta > 0.0 && Counts(row) && row.tp > 0.0
    requires p * (row.tp + row.fp) == row.tp && q * (row.tp + row.fn) == row.tp
    ensures MetricDefined(FBeta(beta), row)
    ensures beta * beta * p + q > 0.0
    ensures MetricValue(FBeta(beta), row) * (beta * beta * p + q) == (1.0 + beta * beta) * p * q
  {
    FBetaWeighted(beta, row);
    var v := MetricValue(FBeta(beta), row);
    var a, b := row.tp + row.fp, row.tp + row.fn;
    assert p > 0.0 && q > 0.0;
    PositiveSquareTimes(beta, p);
    assert (beta * beta * p + q) * (a * b) == row.tp * (beta * beta * b + a);
    assert p * q * (a * b) == row.tp * row.tp;
    assert row.tp * (1.0 + beta * beta) + row.fp + row.fn * (beta * beta) == beta * beta * b + a;
    assert v * (beta * beta * p + q) * (a * b) == (1.0 + beta * beta) * p * q * (a * b) by {
      calc {
        v * (beta * beta * p + q) * (a * b);
        v * (row.tp * (beta * beta * b + a));
        row.tp * (v * (beta * beta * b + a));
        row.tp * (row.tp * (1.0 + beta * beta));
        (1.0 + beta * beta) * (p * q * (a * b));
      }
    }
    HarmonicCancel(v, beta, p, q, a, b);
  }

  /** With a true positive, the F-beta score times its weighted denominator is the weighted tp. */
  lemma FBetaWeighted(beta: real, row: Row)
    requires beta > 0.0 && Counts(row) && row.tp > 0.0
    ensures MetricDefined(FBeta(beta), row)
    ensures MetricValue(FBeta(beta), row) * (row.tp * (1.0 + beta * beta) + row.fp + row.fn * (beta * beta))
         == row.tp * (1.0 + beta * beta)
  {
    CountsDefined(FBeta(beta), row);
    PositiveSquare(beta);
    PositiveProduct(row.tp, 1.0 + beta * beta);
  }

  /** The square of a positive number is positive. */
  lemma PositiveSquare(b: real)
    requires b > 0.0
    ensures b * b > 0.0
  {
  }

  /** A positive square times a positive number is positive. */
  lemma PositiveSquareTimes(b: real, x: real)
    requires b > 0.0 && x > 0.0
    ensures b * b * x > 0.0
  {
    PositiveSquare(b);
  }

  /** The product of two positive numbers is positive. */
  lemma PositiveProduct(x: real, y: real)
    requires x > 0.0 && y > 0.0
    ensures x * y > 0.0
  {
  }

  /** The common positive factor a·b of the harmonic-mean identity cancels. */
  lemma HarmonicCancel(v: real, beta: real, p: real, q: real, a: real, b: real)
    requires a > 0.0 && b > 0.0
    requires v * (beta * beta * p + q) * (a * b) == (1.0 + beta * beta) * p * q * (a * b)
    ensures v * (beta * beta * p + q) == (1.0 + beta * beta) * p * q
  {
    PositiveProduct(a, b);
    var x, y, c := v * (beta * beta * p + q), (1.0 + beta * beta) * p * q, a * b;
    assert (x - y) * c == 0.0;
  }

  /** Only `f_score` builds an F-beta metric, so its beta is positive. */
  predicate ValidMetric(m: Metric) {
    m.FBeta? ==> m.beta > 0.0
  }

  /** The metric can be evaluated on `row` without dividing by zero. */
  predicate MetricDefined(m: Metric, row: Row) {
    match m
    case Cti => row.tp != 0.0 ==> row.tp + row.fp + row.fn != 0.0
    case J => (row.tp != 0.0 ==> row.tp + row.fn != 0.0) && (row.tn != 0.0 ==> row.tn + row.fp != 0.0)
    case P4 => 4.0 * row.tp * row.tn != 0.0 ==> 4.0 * row.tp * row.tn + (row.tp + row.tn) * (row.fp + row.fn) != 0.0
    case FBeta(b) =>
      row.tp * (1.0 + b * b) != 0.0 ==> row.tp * (1.0 + b * b) + row.fp + row.fn * (b * b) != 0.0
  }

  /** Counts never divide by zero. */
  lemma CountsDefined(m: Metric, row: Row)
    requires ValidMetric(m) && Counts(row)
    ensures MetricDefined(m, row)
  {
    match m
    case FBeta(b) =>
      NonNegative(row.fn, b);
    case P4 =>
      ProductNonNegative(row.tp + row.tn, row.fp + row.fn);
      ProductNonNegative(4.0 * row.tp, row.tn);
    case _ =>
  }

  /** The score `m` gives `row`; the F-beta metric weighs tp by 1 + beta² and fn by beta². */
  function MetricValue(m: Metric, row: Row): (r: real)
    requires MetricDefined(m, row)
    ensures ValidMetric(m) && Counts(row) && !m.J? ==> 0.0 <= r <= 1.0
    ensures Counts(row) && m.J? ==> -1.0 <= r <= 1.0
  {
    match m
    case Cti => CtiMetric(row.tp, row.fp, row.fn)
    case J => JMetric(row.tp, row.fp, row.tn, row.fn)
    case P4 => P4Metric(row.tp, row.fp, row.tn, row.fn)
    case FBeta(b) =>
      NonNegative(row.fn, b);
      CtiMetric(row.tp * (1.0 + b * b), row.fp, row.fn * (b * b))
  }

  /** A non-negative count times a square is non-negative. */
  lemma NonNegative(x: real, b: real)
    ensures 0.0 <= b * b
    ensures b != 0.0 ==> 0.0 < b * b
    ensures 0.0 <= x ==> 0.0 <= x * (b * b)
  {
    if b < 0.0 {
      assert b * b == (-b) * (-b);
    }
  }

  /** The product of two non-negative numbers is non-negative. */
  lemma ProductNonNegative(x: real, y: real)
    requires 0.0 <= x && 0.0 <= y
    ensures 0.0 <= x * y
  {
  }

  /** Perfect predictions (no false positive, no false negative) score 1 on every metric. */
  lemma PerfectScores(m: Metric, row: Row)
    requires ValidMetric(m) && Counts(row) && row.fp == 0.0 && row.fn == 0.0 && row.tp > 0.0
    requires m.J? || m.P4? ==> row.tn > 0.0
    ensures MetricDefined(m, row) && MetricValue(m, row) == 1.0
  {
    CountsDefined(m, row);
    if m.FBeta? {
      NonNegative(row.fn, m.beta);
      assert row.tp * (1.0 + m.beta * m.beta) > 0.0;
    } else if m.P4? {
      assert 4.0 * row.tp * row.tn > 0.0;
    }
  }

  /** Without a true positive, the metrics that reward hits score 0 and J scores at most 0. */
  lemma NoHitScores(m: Metric, row: Row)
    requires ValidMetric(m) && Counts(row) && row.tp == 0.0
    ensures MetricDefined(m, row)
    ensures m.J? ==> MetricValue(m, row) <= 0.0
    ensures !m.J? ==> MetricValue(m, row) == 0.0
  {
    CountsDefined(m, row);
    if m.J? && row.tn != 0.0 {
      DivBounds(row.tn, row.tn + row.fp);
    }
  }

  /** A non-negative part over a positive whole it does not exceed lies in [0, 1]. */
  lemma DivBounds(part: real, whole: real)
    requires 0.0 <= part <= whole && 0.0 < whole
    ensures 0.0 <= part / whole <= 1.0
  {
  }

  // ---------------------------------------------------------------- filters

  /** The filter can be evaluated on `row` without dividing by zero. */
  predicate FilterDefined(f: Filter, row: Row) {
    f.MinPrecisionRecall? && row.tp != 0.0 ==> row.tp + row.fp != 0.0 && row.tp + row.fn != 0.0
  }

  /**
   * Whether filter `f` lets `score` through for `row`. Without true positives,
   * precision and recall are treated as 0, so only non-positive minimums pass.
   */
  predicate Passes(f: Filter, row: Row, score: real)
    requires FilterDefined(f, row)
  {
    match f
    case MinScore(m) => score >= m
    case MinPrecisionRecall(mp, mr) =>
      if row.tp == 0.0 then mp <= 0.0 && mr <= 0.0
      else row.tp / (row.tp + row.fp) >= mp && row.tp / (row.tp + row.fn) >= mr
    case ThresholdRange(lo, hi) => lo <= row.threshold <= hi
    case BlockTags(blocked) => row.tag !in blocked
  }

  /** `g` is at most as strict as `f`: same kind, with looser bounds. */
  predicate Looser(g: Filter, f: Filter) {
    match (g, f)
    case (MinScore(a), MinScore(b)) => a <= b
    case (MinPrecisionRecall(gp, gr), MinPrecisionRecall(fp, fr)) => gp <= fp && gr <= fr
    case (ThresholdRange(glo, ghi), ThresholdRange(flo, fhi)) => glo <= flo && fhi <= ghi
    case (BlockTags(gb), BlockTags(fb)) => gb <= fb
    case _ => false
  }

  /** Loosening a filter's bounds never rejects what the stricter filter let through. */
  lemma LooserPasses(g: Filter, f: Filter, row: Row, score: real)
    requires Looser(g, f) && FilterDefined(f, row) && Passes(f, row, score)
    ensures FilterDefined(g, row) && Passes(g, row, score)
  {
  }

  /** Counts never divide by zero in `pr_filter`. */
  lemma CountsFilterDefined(f: Filter, row: Row)
    requires Counts(row)
    ensures FilterDefined(f, row)
  {
  }

  /** A filter-wrapped metric's score can be computed without dividing by zero. */
  predicate ScoredDefined(m: Metric, filters: seq<Filter>, row: Row)
    decreases |filters|, 0
  {
    if filters == [] then MetricDefined(m, row)
    else
      var n := |filters| - 1;
      && ScoredDefined(m, filters[..n], row)
      && (Scored(m, filters[..n], row).Some? ==> FilterDefined(filters[n], row))
  }

  /**
   * `metric` after `for f in filters: metric = apply_filter(metric, f)`:
   * the innermost metric runs first; each wrapper passes on None and vetoes
   * a score its filter rejects, and otherwise returns the score unchanged.
   */
  function Scored(m: Metric, filters: seq<Filter>, row: Row): (r: Option<real>)
    requires ScoredDefined(m, filters, row)
    ensures r.Some? ==> MetricDefined(m, row) && r.value == MetricValue(m, row)
    decreases |filters|, 1
  {
    if filters == [] then Some(MetricValue(m, row))
    else
      var n := |filters| - 1;
      var inner := Scored(m, filters[..n], row);
      if inner.None? || !Passes(filters[n], row, inner.value) then None else inner
  }

  /** Every filter is defined on `row` and lets the score through. */
  predicate AllPass(filters: seq<Filter>, row: Row, score: real) {
    forall i :: 0 <= i < |filters| ==> FilterDefined(filters[i], row) && Passes(filters[i], row, score)
  }

  /**
   * The folded filters act as their conjunction: a score comes out exactly
   * when every filter passes the metric's score, and it is that score.
   */
  lemma {:induction false} ScoredIsConjunction(m: Metric, filters: seq<Filter>, row: Row)
    requires ScoredDefined(m, filters, row)
    ensures MetricDefined(m, row)
    ensures Scored(m, filters, row).Some? <==> AllPass(filters, row, MetricValue(m, row))
    ensures Scored(m, filters, row).Some? ==> Scored(m, filters, row).value == MetricValue(m, row)
    decreases |filters|
  {
    if filters != [] {
      var n := |filters| - 1;
      ScoredIsConjunction(m, filters[..n], row);
      var v := MetricValue(m, row);
      if AllPass(filters, row, v) {
        assert AllPass(filters[..n], row, v) by {
          forall i | 0 <= i < n ensures FilterDefined(filters[..n][i], row) && Passes(filters[..n][i], row, v) {
            assert filters[..n][i] == filters[i];
          }
        }
      }
      if Scored(m, filters, row).Some? {
        forall i | 0 <= i < |filters| ensures FilterDefined(filters[i], row) && Passes(filters[i], row, v) {
          if i < n {
            assert filters[..n][i] == filters[i];
          }
        }
      }
    }
  }

  /** With counts from counting, every metric and filter combination is defined. */
  lemma {:induction false} CountsScoredDefined(m: Metric, filters: seq<Filter>, row: Row)
    requires ValidMetric(m) && Counts(row)
    ensures ScoredDefined(m, filters, row)
    decreases |filters|
  {
    if filters == [] {
      CountsDefined(m, row);
    } else {
      CountsScoredDefined(m, filters[..|filters| - 1], row);
    }
  }
}
