/** How a call's error is classified, merged over endpoints, and counted by a breaker. */
module Verdicts {
  import opened Prelude

  /** A non-2xx answer to /watch, /reprocess or /health, or any other failure (transport, skipped for an open breaker). */
  datatype CallError = RegisterError(code: int) | ReprocessError(code: int) | ProbeError(code: int) | OtherError(what: string)

  datatype Outcome = Fine | Rejected | Unauthorized | ServerError | Network | Canceled

  const NO_HEALTHY_ENDPOINTS := OtherError("no healthy endpoints")

  function Classify(ctxDone: bool, err: Option<CallError>): Outcome
  {
    if err.None? then Fine
    else if ctxDone then Canceled
    else if err.value.OtherError? then Network
    else if err.value.code >= 500 then ServerError
    else if err.value.code == 401 || err.value.code == 403 then Unauthorized
    else Rejected
  }

  /** Whether the outcome counts toward the breaker. */
  predicate Failure(outcome: Outcome)
  {
    outcome.Network? || outcome.ServerError?
  }

  function ErrRank(ctxDone: bool, err: CallError): nat
  {
    match Classify(ctxDone, Some(err))
    case Canceled => 0
    case Network => 1
    case ServerError => 2
    case Unauthorized => 3
    case _ => 4
  }

  /** A /watch refusal that sending again cannot fix. */
  predicate PermanentRejection(err: CallError)
  {
    err.RegisterError? && 400 <= err.code < 500 && err.code !in {401, 403, 408, 429}
  }

  /** Nil when some endpoint accepted (or none was asked), else the earliest of the errors most worth retrying. */
  ghost predicate IsMerged(ctxDone: bool, errs: seq<Option<CallError>>, best: Option<CallError>)
  {
    && (best.None? <==> errs == [] || None in errs)
    && (best.Some? ==> exists k ::
          && 0 <= k < |errs| && errs[k] == best
          && (forall i | 0 <= i < |errs| :: errs[i].Some? && ErrRank(ctxDone, best.value) <= ErrRank(ctxDone, errs[i].value))
          && forall i | 0 <= i < k :: ErrRank(ctxDone, best.value) < ErrRank(ctxDone, errs[i].value))
  }

  const MAX_INT := 0x7FFF_FFFF_FFFF_FFFF

  /** Nil as soon as one endpoint accepted; otherwise the first error of the lowest rank. */
  method MergeErrors(ctxDone: bool, errs: seq<Option<CallError>>) returns (best: Option<CallError>)
    ensures IsMerged(ctxDone, errs, best)
  {
    best := None;
    var bestRank: int := MAX_INT;
    ghost var at := 0;
    for n := 0 to |errs|
      invariant None !in errs[..n]
      invariant n == 0 ==> best.None? && bestRank == MAX_INT
      invariant n > 0 ==> 0 <= at < n && best.Some? && errs[at] == best && bestRank == ErrRank(ctxDone, best.value)
      invariant forall i | 0 <= i < n :: errs[i].Some? && bestRank <= ErrRank(ctxDone, errs[i].value)
      invariant n > 0 ==> forall i | 0 <= i < at :: bestRank < ErrRank(ctxDone, errs[i].value)
    {
      if errs[n] == None {
        return None;
      }
      var r := ErrRank(ctxDone, errs[n].value);
      if r < bestRank {
        best, bestRank, at := errs[n], r, n;
      }
    }
  }

  /** The pool answers with a permanent rejection only when no endpoint's answer was worth a retry. */
  lemma RejectionIsUnanimous(errs: seq<Option<CallError>>, best: Option<CallError>)
    requires IsMerged(false, errs, best) && best.Some? && PermanentRejection(best.value)
    ensures forall i | 0 <= i < |errs| :: Classify(false, errs[i]) == Rejected
  {
    var k :| 0 <= k < |errs| && errs[k] == best;
    forall i | 0 <= i < |errs|
      ensures Classify(false, errs[i]) == Rejected
    {
      assert errs[i].Some? && ErrRank(false, errs[i].value) == 4;
    }
  }

  // ----- the breaker

  datatype Breaker = Breaker(failures: nat, open: bool)

  /** The locked update after one call. */
  function Recorded(b: Breaker, threshold: int, ctxDone: bool, err: Option<CallError>): Breaker
  {
    var outcome := Classify(ctxDone, err);
    if outcome.Canceled? then b
    else if !Failure(outcome) then b.(failures := 0)
    else Breaker(b.failures + 1, b.open || b.failures + 1 >= threshold)
  }

  function Closed(b: Breaker): Breaker
  {
    if b.open then Breaker(0, false) else b
  }

  /** A closed breaker has seen fewer than `threshold` failures in a row. */
  predicate BreakerSound(b: Breaker, threshold: int)
  {
    !b.open ==> b.failures < threshold
  }

  /** The breaker after a row of failures. */
  function AfterFailures(b: Breaker, threshold: int, errs: seq<CallError>): Breaker
  {
    if errs == [] then b else Recorded(AfterFailures(b, threshold, errs[..|errs| - 1]), threshold, false, Some(errs[|errs| - 1]))
  }

  /** From a success on, it opens exactly at the threshold-th failure in a row. */
  lemma {:induction false} TripsAtThreshold(b: Breaker, threshold: int, errs: seq<CallError>)
    requires b == Breaker(0, false) && threshold >= 1
    requires forall e | e in errs :: Failure(Classify(false, Some(e)))
    ensures AfterFailures(b, threshold, errs) == Breaker(|errs|, |errs| >= threshold)
  {
    if errs != [] {
      assert errs[|errs| - 1] in errs;
      TripsAtThreshold(b, threshold, errs[..|errs| - 1]);
    }
  }

  class EndpointBreaker {
    const threshold: int
    var consecutiveFailures: nat
    var open: bool

    function View(): Breaker
      reads this
    {
      Breaker(consecutiveFailures, open)
    }

    constructor (threshold: int)
      requires threshold >= 1
      ensures this.threshold == threshold && View() == Breaker(0, false)
    {
      this.threshold := threshold;
      consecutiveFailures, open := 0, false;
    }

    /** Counts one call; a success while open closes the breaker. */
    method Record(ctxDone: bool, err: Option<CallError>)
      requires BreakerSound(View(), threshold) && threshold >= 1
      modifies this
      ensures BreakerSound(View(), threshold)
      ensures var recorded := Recorded(old(View()), threshold, ctxDone, err);
              View() == if err.None? then Closed(recorded) else recorded
    {
      var outcome := Classify(ctxDone, err);
      if outcome == Canceled {
        return;
      }
      if !Failure(outcome) {
        consecutiveFailures := 0;
        var wasOpen := open;
        if wasOpen && err == None {
          CloseBreaker();
        }
        return;
      }
      consecutiveFailures := consecutiveFailures + 1;
      var trip := !open && consecutiveFailures >= threshold;
      if trip {
        open := true;
      }
    }

    method CloseBreaker()
      modifies this
      ensures View() == Closed(old(View()))
    {
      if !open {
        return;
      }
      open := false;
      consecutiveFailures := 0;
    }
  }
}
