/** The sequential search behind the Validate action: every configuration
    is fitted, backtested and scored in grid order, and two kinds of
    failure end the whole search early. */
module Search {
  import opened Grid

  /** What fitting, backtesting and scoring one configuration yields: the
      backtest raises (history too short for the horizon or for an enabled
      seasonality), the metric table lacks the chosen metric, or the
      metric's value for the first horizon bucket. */
  datatype Outcome = BacktestFails | MetricMissing | Value(error: real)

  /** The error metric chosen by the user. */
  datatype Metric = Rmse | Mse | Mape

  /** A diagnostic shown to the user; `Text` gives its wording. */
  datatype Message =
    | YearlyWarning      // shown as a warning
    | WeeklyWarning      // shown as a warning
    | DailyWarning       // shown as a warning
    | HorizonWarning     // shown as a warning
    | NearZeroMapeError  // shown as an error
    | CrossValidationFailed  // shown as an error

  /** The wording of each diagnostic. */
  function Text(m: Message): string {
    match m
    case YearlyWarning =>
      "Warning: Make sure that yearly seasonality is set to False/auto if you have less than a year worth of training data"
    case WeeklyWarning =>
      "Warning: Make sure that weekly seasonality is set to False/auto if you have less than a week worth of training data"
    case DailyWarning =>
      "Warning: Make sure that daily seasonality is set to False/auto if you have less than a day worth of training data"
    case HorizonWarning =>
      "Warning: For validation purposes, the dataset provided should cover a time window at least 4 times the specified horizon. Make sure this condition is verified."
    case NearZeroMapeError =>
      "Possible error: Validation data contains y close to 0. Cannot compute MAPE."
    case CrossValidationFailed =>
      "Error: cross validation failed and it was not possible to get the respective results."
  }

  /** True if this outcome ends the search: a failed backtest always does;
      a missing metric does only when the metric is MAPE and the series'
      minimum lies below 1e-8 (`yNearZero`). */
  predicate StopsSearch(o: Outcome, metric: Metric, yNearZero: bool): (b: bool)
    ensures o.BacktestFails? ==> b
    ensures o.Value? ==> !b
    ensures o.MetricMissing? && metric == Mape && yNearZero ==> b
    ensures metric != Mape || !yNearZero ==> (b <==> o.BacktestFails?)
  {
    o.BacktestFails? || (o.MetricMissing? && metric == Mape && yNearZero)
  }

  /** The position of the first configuration whose outcome ends the
      search, or the number of configurations when none does. */
  function StopIndex(outcomes: seq<Outcome>, metric: Metric, yNearZero: bool): (k: nat)
    ensures k <= |outcomes|
    ensures forall j :: 0 <= j < k ==> !StopsSearch(outcomes[j], metric, yNearZero)
    ensures k < |outcomes| ==> StopsSearch(outcomes[k], metric, yNearZero)
  {
    if outcomes == [] || StopsSearch(outcomes[0], metric, yNearZero) then 0
    else 1 + StopIndex(outcomes[1..], metric, yNearZero)
  }

  /** The metric values among `outcomes`, in order; missing metrics
      contribute nothing. */
  function Recorded(outcomes: seq<Outcome>): (r: seq<real>)
    ensures |r| <= |outcomes|
  {
    if outcomes == [] then []
    else
      var last := outcomes[|outcomes| - 1];
      Recorded(outcomes[..|outcomes| - 1]) + (if last.Value? then [last.error] else [])
  }

  /** The error list a search over `outcomes` leaves behind. */
  function SearchErrors(outcomes: seq<Outcome>, metric: Metric, yNearZero: bool): (r: seq<real>)
    ensures |r| <= StopIndex(outcomes, metric, yNearZero)
  {
    Recorded(outcomes[..StopIndex(outcomes, metric, yNearZero)])
  }

  /** The value shown by the progress bar after `steps` of `total` steps,
      each worth `1 / total`: it stays within [0, 1] and reaches 1 exactly
      when every step was taken. */
  function ProgressFraction(steps: nat, total: nat): (f: real)
    requires 0 < total && steps <= total
    ensures 0.0 <= f <= 1.0
    ensures f == 1.0 <==> steps == total
  {
    steps as real / total as real
  }

  /** Rank of a backtest-failure warning in the order it is shown. */
  function WarningRank(m: Message): nat {
    match m
    case YearlyWarning => 0
    case WeeklyWarning => 1
    case DailyWarning => 2
    case _ => 3
  }

  /** The warnings shown when a backtest fails: one per truthy seasonality
      setting, then the reminder that the data must cover four horizons. */
  function BacktestWarnings(daily: Seasonality, weekly: Seasonality, yearly: Seasonality): (r: seq<Message>)
    ensures 1 <= |r| <= 4 && r[|r| - 1] == HorizonWarning
    ensures YearlyWarning in r <==> Truthy(yearly)
    ensures WeeklyWarning in r <==> Truthy(weekly)
    ensures DailyWarning in r <==> Truthy(daily)
    ensures forall i, j :: 0 <= i < j < |r| ==> WarningRank(r[i]) < WarningRank(r[j])
  {
    (if Truthy(yearly) then [YearlyWarning] else [])
    + (if Truthy(weekly) then [WeeklyWarning] else [])
    + (if Truthy(daily) then [DailyWarning] else [])
    + [HorizonWarning]
  }

  /** The messages shown when `o` ends the search: the backtest warnings,
      which always end with the horizon warning, or the near-zero MAPE
      error alone. */
  function AbortMessages(o: Outcome, daily: Seasonality, weekly: Seasonality, yearly: Seasonality): (r: seq<Message>)
    ensures 1 <= |r|
    ensures r[|r| - 1] == HorizonWarning <==> o.BacktestFails?
    ensures NearZeroMapeError in r <==> !o.BacktestFails?
  {
    if o.BacktestFails? then BacktestWarnings(daily, weekly, yearly) else [NearZeroMapeError]
  }

  /** Runs the search over `allParams`, where `outcomes[i]` is what fitting
      and backtesting `allParams[i]` yields. Returns the recorded errors,
      the number of progress steps taken (each worth `1 / |allParams|`) and
      the messages shown. The search stops at the first outcome that
      `StopsSearch`; every other iteration advances progress, whether or
      not it recorded a value. */
  method RunSearch(allParams: seq<Config>, outcomes: seq<Outcome>, metric: Metric, yNearZero: bool,
                   daily: Seasonality, weekly: Seasonality, yearly: Seasonality)
    returns (errors: seq<real>, progress: nat, messages: seq<Message>)
    requires |outcomes| == |allParams|
    ensures progress == StopIndex(outcomes, metric, yNearZero)
    ensures errors == SearchErrors(outcomes, metric, yNearZero)
    ensures |errors| <= progress <= |allParams|
    ensures |allParams| > 0 ==> (ProgressFraction(progress, |allParams|) == 1.0 <==> progress == |allParams|)
    ensures messages == if progress < |outcomes| then AbortMessages(outcomes[progress], daily, weekly, yearly) else []
  {
    errors, progress, messages := [], 0, [];
    var i := 0;
    while i < |allParams|
      invariant 0 <= i <= |allParams|
      invariant progress == i && messages == []
      invariant forall j :: 0 <= j < i ==> !StopsSearch(outcomes[j], metric, yNearZero)
      invariant errors == Recorded(outcomes[..i])
    {
      RecordedStep(outcomes, i);
      match outcomes[i] {
        case BacktestFails =>
          messages := BacktestWarnings(daily, weekly, yearly);
          break;
        case MetricMissing =>
          if metric == Mape && yNearZero {
            messages := [NearZeroMapeError];
            break;
          }
        case Value(v) =>
          errors := errors + [v];
      }
      progress := progress + 1;
      i := i + 1;
    }
    StopIndexAt(outcomes, metric, yNearZero, i);
  }

  /** Scoring one more configuration appends its value, if any, to the
      recorded errors. */
  lemma RecordedStep(outcomes: seq<Outcome>, i: nat)
    requires i < |outcomes|
    ensures Recorded(outcomes[..i + 1])
      == Recorded(outcomes[..i]) + (if outcomes[i].Value? then [outcomes[i].error] else [])
  {
    assert outcomes[..i + 1][..i] == outcomes[..i];
  }

  /** A position before which nothing stops the search, and at which the
      search stops or the grid ends, is the stop position. */
  lemma StopIndexAt(outcomes: seq<Outcome>, metric: Metric, yNearZero: bool, k: nat)
    requires k <= |outcomes|
    requires forall j :: 0 <= j < k ==> !StopsSearch(outcomes[j], metric, yNearZero)
    requires k < |outcomes| ==> StopsSearch(outcomes[k], metric, yNearZero)
    ensures StopIndex(outcomes, metric, yNearZero) == k
  {
  }

  /** True if every configuration's outcome is a metric value. */
  predicate AllValues(outcomes: seq<Outcome>) {
    forall i :: 0 <= i < |outcomes| ==> outcomes[i].Value?
  }

  /** When every outcome is a value, the search visits every configuration
      and records every value. */
  lemma CompleteSearch(outcomes: seq<Outcome>, metric: Metric, yNearZero: bool)
    requires AllValues(outcomes)
    ensures StopIndex(outcomes, metric, yNearZero) == |outcomes|
    ensures SearchErrors(outcomes, metric, yNearZero) == Recorded(outcomes)
    ensures |Recorded(outcomes)| == |outcomes|
  {
    assert outcomes[..|outcomes|] == outcomes;
    RecordedComplete(outcomes);
  }

  /** Only the outcomes up to the one that stops the search matter: the
      configurations after it are never evaluated, so changing their
      outcomes changes neither the stop position nor the errors. */
  lemma {:induction false} LaterOutcomesIgnored(a: seq<Outcome>, b: seq<Outcome>, metric: Metric, yNearZero: bool)
    requires StopIndex(a, metric, yNearZero) < |a| <= |b|
    requires a[..StopIndex(a, metric, yNearZero) + 1] == b[..StopIndex(a, metric, yNearZero) + 1]
    ensures StopIndex(b, metric, yNearZero) == StopIndex(a, metric, yNearZero)
    ensures SearchErrors(b, metric, yNearZero) == SearchErrors(a, metric, yNearZero)
  {
    var k := StopIndex(a, metric, yNearZero);
    assert b[k] == a[..k + 1][k];
    forall j | 0 <= j < k ensures !StopsSearch(b[j], metric, yNearZero) {
      assert b[j] == a[..k + 1][j];
    }
    assert a[..k] == a[..k + 1][..k] == b[..k + 1][..k] == b[..k];
  }

  /** A failed backtest at configuration `k` means no configuration after
      `k` is evaluated: at most `k` values are recorded, and when nothing
      before `k` stopped the search, the errors are exactly the values
      recorded for the configurations before `k`. */
  lemma BacktestFailureTruncates(outcomes: seq<Outcome>, metric: Metric, yNearZero: bool, k: nat)
    requires k < |outcomes| && outcomes[k].BacktestFails?
    ensures StopIndex(outcomes, metric, yNearZero) <= k
    ensures |SearchErrors(outcomes, metric, yNearZero)| <= k
    ensures (forall j :: 0 <= j < k ==> !StopsSearch(outcomes[j], metric, yNearZero)) ==>
      SearchErrors(outcomes, metric, yNearZero) == Recorded(outcomes[..k])
  {
  }

  /** A missing metric that does not stop the search is skipped silently:
      the search goes on past it and it adds nothing to the errors. */
  lemma MissingMetricSkipped(outcomes: seq<Outcome>, metric: Metric, yNearZero: bool, k: nat)
    requires k < |outcomes| && outcomes[k].MetricMissing?
    requires !(metric == Mape && yNearZero)
    requires forall j :: 0 <= j < k ==> !StopsSearch(outcomes[j], metric, yNearZero)
    ensures StopIndex(outcomes, metric, yNearZero) > k
    ensures Recorded(outcomes[..k + 1]) == Recorded(outcomes[..k])
  {
    RecordedStep(outcomes, k);
  }

  /** Appending outcomes only appends to the recorded errors. */
  lemma {:induction false} RecordedPrefix(outcomes: seq<Outcome>, i: nat, j: nat)
    requires i <= j <= |outcomes|
    ensures Recorded(outcomes[..i]) <= Recorded(outcomes[..j])
  {
    if i < j {
      RecordedPrefix(outcomes, i, j - 1);
      assert outcomes[..j][..j - 1] == outcomes[..j - 1];
    }
  }

  /** Every outcome records a value exactly when the recorded list is as
      long as the outcome list. */
  lemma {:induction false} RecordedComplete(outcomes: seq<Outcome>)
    ensures |Recorded(outcomes)| == |outcomes| <==> forall i :: 0 <= i < |outcomes| ==> outcomes[i].Value?
  {
    if outcomes != [] {
      var init := outcomes[..|outcomes| - 1];
      RecordedComplete(init);
      assert forall i :: 0 <= i < |init| ==> init[i] == outcomes[i];
    }
  }

  /** When every outcome records a value, entry `i` of the recorded list is
      the value of configuration `i`. */
  lemma {:induction false} RecordedAllValues(outcomes: seq<Outcome>)
    requires forall i :: 0 <= i < |outcomes| ==> outcomes[i].Value?
    ensures |Recorded(outcomes)| == |outcomes|
    ensures forall i :: 0 <= i < |outcomes| ==> Recorded(outcomes)[i] == outcomes[i].error
  {
    if outcomes != [] {
      var init := outcomes[..|outcomes| - 1];
      assert forall i :: 0 <= i < |init| ==> init[i] == outcomes[i];
      RecordedAllValues(init);
    }
  }

  /** The search records one value per configuration exactly when every
      configuration's outcome is a value; then the errors are those values
      in grid order. A missing metric that does not stop the search still
      leaves the error list one entry short. */
  lemma SearchCompleteIff(outcomes: seq<Outcome>, metric: Metric, yNearZero: bool)
    ensures |SearchErrors(outcomes, metric, yNearZero)| == |outcomes| <==> AllValues(outcomes)
    ensures AllValues(outcomes) ==>
      forall i :: 0 <= i < |outcomes| ==> SearchErrors(outcomes, metric, yNearZero)[i] == outcomes[i].error
  {
    var k := StopIndex(outcomes, metric, yNearZero);
    if k == |outcomes| {
      assert outcomes[..k] == outcomes;
      RecordedComplete(outcomes);
      if AllValues(outcomes) {
        RecordedAllValues(outcomes);
      }
    } else {
      assert !outcomes[k].Value?;
    }
  }

  /** When no outcome stops the search, it visits every configuration and
      takes one progress step for each, recorded or not. */
  lemma RunsToEnd(outcomes: seq<Outcome>, metric: Metric, yNearZero: bool)
    requires forall i :: 0 <= i < |outcomes| ==> !StopsSearch(outcomes[i], metric, yNearZero)
    ensures StopIndex(outcomes, metric, yNearZero) == |outcomes|
    ensures SearchErrors(outcomes, metric, yNearZero) == Recorded(outcomes)
  {
    assert outcomes[..|outcomes|] == outcomes;
  }
}
