/**
  The vocabulary shared by the job stores, the processor and the worker, and
  the graph of processing stages.
*/
module Domain {
  datatype Option<+T> = None | Some(value: T)

  datatype Status =
    | Queued | Processing | Delivering | Ready
    | Delivered | DeliveryFailed | Failed | Cancelled
  {
    predicate Terminal() {
      match this
      case Ready | Delivered | DeliveryFailed | Failed | Cancelled => true
      case _ => false
    }

    // The two statuses in which a job is held under a lease.
    predicate Leased() {
      Processing? || Delivering?
    }
  }

  // Stages are strings in the program: NoStage is the empty string and
  // OtherStage any string that names no stage.
  datatype Stage =
    | NoStage | Fetching | Extracting | AIAnalyzing | Formatting | Persisting
    | OtherStage(name: string)
  {
    predicate Valid() {
      Fetching? || Extracting? || AIAnalyzing? || Formatting? || Persisting?
    }

    predicate CanTransitionTo(to: Stage) {
      Valid() && to.Valid() &&
      (this == to ||
       match this
       case Fetching => to.Extracting? || to.Formatting?
       case Extracting => to.AIAnalyzing? || to.Fetching?
       case AIAnalyzing => to.Formatting? || to.Fetching?
       case Formatting => to.Persisting? || to.Fetching?
       case _ => false)
    }
  }

  // Failure categories are strings too: OtherCategory is any string without a
  // fixed message of its own.
  datatype FailureCategory =
    | InvalidInput | BlockedTarget | FetchFailed | RenderTimeout
    | AccessDenied | PaywallDetected | UnsupportedContent | InsufficientContent
    | AIUnavailable | AIAuthFailed | AIModelUnsupported | AIInvalidResponse
    | FormatFailed | PDFQualityFailed | StorageFailed
    | DeliveryRejected | DeliveryTimeout | InternalError
    | OtherCategory(name: string)
  {
    function Normalized(): FailureCategory {
      if OtherCategory? then InternalError else this
    }
  }

  // ---------------------------------------------------------- stage traces

  // The stages a job shows, one entry per observation, follow the graph.
  ghost predicate Legal(trace: seq<Stage>) {
    |trace| <= 1 || (trace[0].CanTransitionTo(trace[1]) && Legal(trace[1..]))
  }

  // The trace without repeats of the stage just shown.
  ghost function Squeeze(trace: seq<Stage>): seq<Stage> {
    if |trace| <= 1 then trace
    else if trace[0] == trace[1] then Squeeze(trace[1..])
    else [trace[0]] + Squeeze(trace[1..])
  }

  // The part of a trace from the last return to fetching on.
  ghost function FromLastFetch(trace: seq<Stage>): seq<Stage> {
    if |trace| <= 1 || Fetching !in trace[1..] then trace else FromLastFetch(trace[1..])
  }

  const REVIEWED_ROUTE := [Fetching, Formatting, Persisting]
  const FULL_ROUTE := [Fetching, Extracting, AIAnalyzing, Formatting, Persisting]

  // The steps from one stage to a different one.
  const STEPS: set<(Stage, Stage)> := {
    (Fetching, Extracting), (Fetching, Formatting), (Extracting, AIAnalyzing), (AIAnalyzing, Formatting),
    (Formatting, Persisting), (Extracting, Fetching), (AIAnalyzing, Fetching), (Formatting, Fetching)}

  lemma TransitionsExactly(from: Stage, to: Stage)
    ensures from.CanTransitionTo(to) <==> (from == to && from.Valid()) || (from, to) in STEPS
  {
  }

  // Both routes can be taken.
  lemma RoutesAreLegal()
    ensures Legal(REVIEWED_ROUTE) && Legal(FULL_ROUTE)
  {
    assert REVIEWED_ROUTE[1..] == [Formatting, Persisting] && [Formatting, Persisting][1..] == [Persisting];
    assert FULL_ROUTE[1..] == [Extracting, AIAnalyzing, Formatting, Persisting];
    assert FULL_ROUTE[1..][1..] == [AIAnalyzing, Formatting, Persisting];
    assert FULL_ROUTE[1..][1..][1..] == [Formatting, Persisting];
  }

  // Persisting is never left for an earlier stage.
  lemma {:induction false} PersistingIsLast(trace: seq<Stage>, i: nat, j: nat)
    requires Legal(trace)
    requires i <= j < |trace| && trace[i] == Persisting
    ensures trace[j] == Persisting
    decreases |trace|
  {
    if 0 < i {
      PersistingIsLast(trace[1..], i - 1, j - 1);
    } else if 0 < j {
      PersistingIsLast(trace[1..], 0, j - 1);
    }
  }

  // Without a return to fetching only one route leads to persisting.
  lemma {:induction false} RouteFrom(trace: seq<Stage>)
    requires Legal(trace) && trace != [] && Fetching !in trace
    requires trace[|trace| - 1] == Persisting
    ensures trace[0].Valid()
    ensures trace[0] == Extracting ==> Squeeze(trace) == FULL_ROUTE[1..]
    ensures trace[0] == AIAnalyzing ==> Squeeze(trace) == FULL_ROUTE[2..]
    ensures trace[0] == Formatting ==> Squeeze(trace) == FULL_ROUTE[3..]
    ensures trace[0] == Persisting ==> Squeeze(trace) == FULL_ROUTE[4..]
  {
    if |trace| > 1 {
      RouteFrom(trace[1..]);
    }
  }

  // Every trace from fetching to persisting ends, from its last return to
  // fetching on, with the full route or with the route of a reviewed article.
  lemma {:induction false} RouteToPersisting(trace: seq<Stage>)
    requires Legal(trace) && Fetching in trace
    requires trace[|trace| - 1] == Persisting
    ensures Squeeze(FromLastFetch(trace)) in {REVIEWED_ROUTE, FULL_ROUTE}
    decreases |trace|
  {
    if Fetching in trace[1..] {
      RouteToPersisting(trace[1..]);
    } else {
      assert trace[0] == Fetching;
      RouteFrom(trace[1..]);
      assert [Fetching] + FULL_ROUTE[1..] == FULL_ROUTE;
      assert [Fetching] + FULL_ROUTE[3..] == REVIEWED_ROUTE;
    }
  }
}
