/** The provider error contract and the engine's classification of it
    (golang/llm/provider/error.go, golang/engine/attempt.go, golang/engine/resumable.go,
    golang/engine/provider_pending.go). */
module ProviderErrors {

  datatype Certainty = NotDispatched | Rejected | Accepted | Ambiguous {
    // The attempt is known not to have created provider work.
    predicate Definite() {
      NotDispatched? || Rejected?
    }
  }

  datatype Retry = RetryNever | RetrySameOperation | RetryNextRoute | RetryAfter

  datatype Code =
    | CodeInvalidArgument | CodeUnsupportedCapability | CodeNoRoute | CodeAuthentication
    | CodePermissionDenied | CodeBudgetDenied | CodeOperationConflict | CodeAmbiguousDispatch
    | CodeProviderRateLimited | CodeProviderUnavailable | CodeProviderInvalidResponse
    | CodeDeadlineExceeded | CodeCanceled | CodeStateUnavailable | CodeStateCorrupt
    | CodeConfiguration | CodeInternal

  /** A Go error chain: sentinel markers, mapped provider errors with their cause, and joins.
      `Opaque` is any other error, and also stands for a nil cause. */
  datatype Fault =
    | Opaque
    | EgressDenied
    | PreDispatch
    | Mapped(code: Code, dispatch: Certainty, retry: Retry, cause: Fault)
    | Joined(left: Fault, right: Fault)

  datatype Verdict = Verdict(code: Code, dispatch: Certainty, retry: Retry)

  datatype Lookup = Missing | Found(verdict: Verdict)

  // errors.Is against one of the two transport markers.
  predicate Carries(fault: Fault, marker: Fault)
  {
    fault == marker ||
    match fault
    case Mapped(_, _, _, cause) => Carries(cause, marker)
    case Joined(left, right) => Carries(left, marker) || Carries(right, marker)
    case _ => false
  }

  // errors.As to a mapped provider error: the first one met depth first.
  function FirstMapped(fault: Fault): Lookup
  {
    match fault
    case Mapped(code, dispatch, retry, _) => Found(Verdict(code, dispatch, retry))
    case Joined(left, right) =>
      var first := FirstMapped(left);
      if first.Found? then first else FirstMapped(right)
    case _ => Missing
  }

  // The error errors.As hands over: the first mapped one with its own cause, without what encloses it.
  function Extracted(fault: Fault): Fault
  {
    match fault
    case Mapped(_, _, _, _) => fault
    case Joined(left, right) => if FirstMapped(left).Found? then Extracted(left) else Extracted(right)
    case _ => Opaque
  }

  lemma {:induction false} ExtractedIsFirst(fault: Fault)
    ensures FirstMapped(Extracted(fault)) == FirstMapped(fault)
    ensures Carries(Extracted(fault), EgressDenied) ==> Carries(fault, EgressDenied)
    ensures Carries(Extracted(fault), PreDispatch) ==> Carries(fault, PreDispatch)
  {
    if fault.Joined? {
      ExtractedIsFirst(fault.left);
      ExtractedIsFirst(fault.right);
    }
  }

  // classifyProviderError.
  function Classify(fault: Fault, marked: bool): Verdict
  {
    match FirstMapped(fault)
    case Found(verdict) =>
      if Carries(fault, EgressDenied) then
        Verdict(CodeProviderUnavailable, NotDispatched, RetryNextRoute)
      else if Carries(fault, PreDispatch) then
        verdict
      else
        var dispatch := if marked && verdict.dispatch.NotDispatched? then Ambiguous else verdict.dispatch;
        if dispatch.Definite() then
          Verdict(verdict.code, dispatch, verdict.retry)
        else
          Verdict(CodeAmbiguousDispatch, dispatch, RetryNever)
    case Missing =>
      if Carries(fault, EgressDenied) || Carries(fault, PreDispatch) then
        Verdict(CodeProviderUnavailable, NotDispatched, RetryNextRoute)
      else if marked then
        Verdict(CodeProviderUnavailable, Ambiguous, RetryNever)
      else
        Verdict(CodeProviderUnavailable, NotDispatched, RetryNextRoute)
  }

  /** What a fault has to say for a marked submission to count as definitely not accepted: it was
      stopped by the egress guard, it never got a writable connection, or the provider refused it. */
  predicate Denies(fault: Fault)
  {
    || Carries(fault, EgressDenied)
    || match FirstMapped(fault)
       case Found(verdict) =>
         verdict.dispatch.Rejected? || (verdict.dispatch.NotDispatched? && Carries(fault, PreDispatch))
       case Missing => Carries(fault, PreDispatch)
  }

  /** After the possible-write mark nothing but such a denial counts; everything else fails closed,
      and without the pre-dispatch marker nothing but RetryNever is then advertised. */
  lemma MarkedFaultIsDefiniteIff(fault: Fault)
    ensures Classify(fault, true).dispatch.Definite() <==> Denies(fault)
    ensures !Denies(fault) && !Carries(fault, PreDispatch) ==> Classify(fault, true).retry.RetryNever?
  {
  }

  /** What a caller is told of a failed submission: its own error on a denial, that the provider is unavailable when
      the egress guard stopped it or nothing mapped it, and otherwise that the dispatch is ambiguous. */
  lemma VerdictIs(fault: Fault)
    ensures var verdict, first := Classify(fault, true), FirstMapped(fault);
            if Carries(fault, EgressDenied) then
              verdict == Verdict(CodeProviderUnavailable, NotDispatched, RetryNextRoute)
            else if first.Missing? then
              && verdict.code == CodeProviderUnavailable
              && (verdict.dispatch.NotDispatched? <==> Carries(fault, PreDispatch))
              && (verdict.retry == if Carries(fault, PreDispatch) then RetryNextRoute else RetryNever)
            else if Carries(fault, PreDispatch) || first.verdict.dispatch.Rejected? then verdict == first.verdict
            else
              && verdict.code == CodeAmbiguousDispatch && verdict.retry == RetryNever
              && (verdict.dispatch.Accepted? <==> first.verdict.dispatch.Accepted?)
              && (verdict.dispatch.Ambiguous? <==> !first.verdict.dispatch.Accepted?)
  {
  }

  // finishFailed marks the failure reopenable, and dispatchPlan may go on to the next candidate.
  predicate Retryable(verdict: Verdict)
  {
    verdict.dispatch.Definite() && !verdict.retry.RetryNever?
  }

  // invokeAttempt returns a failed idempotency lookup as the verdict so far, with the lookup's error as its cause.
  function RecoveryFailure(verdict: Verdict, lookup: Fault): Fault
  {
    Mapped(verdict.code, verdict.dispatch, verdict.retry, lookup)
  }

  /** The wrapping is meant to keep an undecided submission undecided. It does so exactly when the
      lookup's own error does not carry the egress-denied marker: the marker is found through the
      cause and turns the verdict on the submission into "not dispatched, try the next route". */
  lemma RecoveryFailureStaysUndecidedIff(verdict: Verdict, lookup: Fault)
    requires !verdict.dispatch.Definite()
    ensures var again := Classify(RecoveryFailure(verdict, lookup), true);
            && (!again.dispatch.Definite() <==> !Carries(lookup, EgressDenied))
            && (Carries(lookup, EgressDenied) ==> Retryable(again))
  {
    assert Carries(RecoveryFailure(verdict, lookup), EgressDenied) <==> Carries(lookup, EgressDenied);
  }

  // transientPollError: a rate-limited status lookup keeps the operation pending.
  function TransientPollFault(fault: Fault): Fault
  {
    match FirstMapped(fault)
    case Found(verdict) =>
      if verdict.retry.RetryAfter? then Mapped(verdict.code, Accepted, RetrySameOperation, fault) else fault
    case Missing => fault
  }

  // What PollProviderOperation returns: a failed lookup, or the failure the provider declared.
  function PollFault(fault: Fault, lookupFailed: bool): Fault
  {
    if lookupFailed then TransientPollFault(fault) else fault
  }

  // pendingPollError.
  function PollVerdict(fault: Fault, lookupFailed: bool): Verdict
  {
    match FirstMapped(PollFault(fault, lookupFailed))
    case Found(verdict) => verdict
    case Missing => Verdict(CodeStateUnavailable, Accepted, RetrySameOperation)
  }

  // The error is returned to the caller and the durable operation stays provider_pending.
  predicate StaysPending(verdict: Verdict)
  {
    verdict.retry.RetrySameOperation? || verdict.code.CodeCanceled?
  }

  // A poll made by the attempt that submitted, or by its recovery, is classified a second time.
  function ReclassifiedPoll(fault: Fault, lookupFailed: bool): Verdict
  {
    Classify(Extracted(PollFault(fault, lookupFailed)), true)
  }

  // A failed lookup on a resumed pending operation that is recorded as a reopenable failure of it.
  predicate ReopeningLookup(fault: Fault)
  {
    match FirstMapped(fault)
    case Found(verdict) =>
      verdict.dispatch.Definite() && verdict.retry.RetryNextRoute? && !verdict.code.CodeCanceled?
    case Missing => false
  }

  // The same for a lookup whose error is classified a second time.
  predicate ReclassifiedLookup(fault: Fault)
  {
    match FirstMapped(fault)
    case Found(verdict) =>
      && !verdict.code.CodeCanceled?
      && !verdict.retry.RetrySameOperation?
      && !verdict.retry.RetryAfter?
      && (|| Carries(Extracted(fault), EgressDenied)
          || (&& verdict.retry.RetryNextRoute?
              && (verdict.dispatch.Rejected? ||
                  (verdict.dispatch.NotDispatched? && Carries(Extracted(fault), PreDispatch)))))
    case Missing => false
  }

  /** Exactly which poll failures end an accepted operation as reopenable. A resumed pending operation
      ends so on a definite error with a next-route retry; a lookup that could not connect is one,
      although it says nothing about the provider-owned operation. A poll of the submitting or the
      recovering attempt needs the transport's evidence as well, or an explicit rejection, or the
      egress marker. */
  lemma PollFailureReopensIff(fault: Fault)
    ensures !StaysPending(PollVerdict(fault, true)) && Retryable(PollVerdict(fault, true)) <==>
            ReopeningLookup(fault)
    ensures !StaysPending(PollVerdict(fault, true)) && Retryable(ReclassifiedPoll(fault, true)) <==>
            ReclassifiedLookup(fault)
  {
    ExtractedIsFirst(fault);
  }

  // A failure the provider declared for its operation, of which nothing is then outstanding.
  predicate Disowns(fault: Fault)
  {
    || Carries(fault, EgressDenied)
    || (FirstMapped(fault).Found? && FirstMapped(fault).verdict.dispatch.Definite())
  }

  lemma DeclaredFailureDisowns(fault: Fault)
    requires !StaysPending(PollVerdict(fault, false))
    ensures Retryable(PollVerdict(fault, false)) ==> Disowns(fault)
    ensures Retryable(ReclassifiedPoll(fault, false)) ==> Disowns(fault)
  {
    ExtractedIsFirst(fault);
  }

  // NewPreDispatchUnavailableError over a dial failure.
  const ConnectionFailed := Mapped(CodeProviderUnavailable, NotDispatched, RetryNextRoute, Joined(PreDispatch, Opaque))

  /** A poll that could not connect is such a failure on every path. */
  lemma UnreachablePollReopens()
    ensures ReopeningLookup(ConnectionFailed) && ReclassifiedLookup(ConnectionFailed)
  {
    assert Carries(Joined(PreDispatch, Opaque), PreDispatch);
  }
}
