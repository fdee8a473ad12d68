/** The session state that survives between interactions and the Validate
    action that updates it. */
module App {
  import opened Wrappers
  import opened Grid
  import opened Search
  import opened Ranking

  /** The persistent part of the page: the last optimum and the last
      ranked results table. */
  class Session {
    var params: Option<Config>
    var cvTable: seq<Row>

    /** A fresh session holds an empty parameter set and an empty table. */
    constructor ()
      ensures params == None && cvTable == []
      ensures !ShowsOptimum()
    {
      params := None;
      cvTable := [];
    }

    /** The optimum is displayed only when both a parameter set and a
        non-empty table are stored. */
    predicate ShowsOptimum()
      reads this
    {
      params.Some? && cvTable != []
    }

    /** The Validate action: builds the grid from the four structural
        settings, runs the search with `outcomes[i]` standing for what
        fitting and backtesting configuration `i` yields, and stores the
        optimum and the ranked table only when every configuration produced
        a value. Otherwise it reports the failure and keeps the previous
        session values. Returns the progress steps taken and the messages
        shown. */
    method Validate(growth: Growth, daily: Seasonality, weekly: Seasonality, yearly: Seasonality,
                    metric: Metric, yNearZero: bool, outcomes: seq<Outcome>)
      returns (progress: nat, messages: seq<Message>)
      requires |outcomes| == 16
      modifies this
      ensures progress == StopIndex(outcomes, metric, yNearZero)
      ensures AllValues(outcomes) ==>
        var allParams := ValidationGrid(growth, daily, weekly, yearly);
        var errors := Recorded(outcomes);
        |allParams| == |errors| == 16 &&
        params == Some(allParams[FirstMinIndex(errors)]) &&
        SortedByError(cvTable) &&
        multiset(cvTable) == multiset(ResultRows(allParams, errors)) &&
        messages == [] &&
        ShowsOptimum()
      ensures !AllValues(outcomes) ==>
        params == old(params) && cvTable == old(cvTable) &&
        messages == (if progress < 16 then AbortMessages(outcomes[progress], daily, weekly, yearly) else [])
                    + [CrossValidationFailed]
    {
      var allParams := ExpandGrid(growth, daily, weekly, yearly);
      var errors;
      errors, progress, messages := RunSearch(allParams, outcomes, metric, yNearZero, daily, weekly, yearly);
      if AllValues(outcomes) {
        CompleteSearch(outcomes, metric, yNearZero);
      } else {
        SearchCompleteIff(outcomes, metric, yNearZero);
      }
      var reported := StoreResults(allParams, errors);
      messages := messages + reported;
    }

    /** The results step after the search: when there is one error per
        configuration, stores the optimum and the ranked table; otherwise
        building the table fails, the failure is reported and the session
        keeps its previous values. */
    method StoreResults(allParams: seq<Config>, errors: seq<real>) returns (reported: seq<Message>)
      requires |allParams| > 0
      modifies this
      ensures |errors| == |allParams| ==>
        params == Some(allParams[FirstMinIndex(errors)]) &&
        SortedByError(cvTable) &&
        multiset(cvTable) == multiset(ResultRows(allParams, errors)) &&
        reported == [] &&
        ShowsOptimum()
      ensures |errors| != |allParams| ==>
        params == old(params) && cvTable == old(cvTable) && reported == [CrossValidationFailed]
    {
      match Select(allParams, errors) {
        case None =>
          reported := [CrossValidationFailed];
        case Some(selection) =>
          params := Some(selection.optimum);
          cvTable := selection.ranked;
          reported := [];
          assert ResultRows(allParams, errors)[0] in multiset(cvTable);
      }
    }
  }
}
