/** How a submission ends when it is let through: success is stored, completed and returned from every lookup,
    pending work is polled, failures are settled in the ledger
    (golang/engine/attempt.go, golang/engine/resumable.go, golang/engine/finalize.go). */
module DispatchProgress {
  import opened ProviderErrors
  import opened AdmissionRecord
  import opened DispatchMachine
  import opened DispatchLimits

  // The worker's token is the operation's.
  predicate Current(system: System, w: WorkerId)
  {
    At(system, w) && Holds(system.workers[w]) && system.workers[w].token == system.store.record.token
  }

  // The worker holds the token of an operation that is still open at the provider.
  predicate Holding(system: System, w: WorkerId)
  {
    && Current(system, w)
    && (system.store.record.state.StateDispatching? || system.store.record.state.StateProviderPending?)
  }

  // The response is stored and remembered where there is room, the ledger is completed with a reference to it, and
  // the caller is told.
  predicate Told(before: System, after: System, w: WorkerId, response: Response, full: bool, outcome: Outcome)
  {
    && before.store.Kept?
    && after.store == Kept(before.store.record.(state := StateCompleted, resultRef := Ref(response)))
    && after.workers == before.workers[w := Ended(outcome)]
    && after.blobs == before.blobs + {response}
    && (full && w.process !in before.caches ==> after.caches == before.caches)
    && (!full || w.process in before.caches ==> after.caches == before.caches[w.process := response])
    && after.sends == before.sends
    && after.now == before.now
  }

  predicate Delivered(before: System, after: System, w: WorkerId, response: Response, full: bool)
  {
    Told(before, after, w, response, full, Returned(response))
  }

  lemma Chain2(system: System, first: Event, second: Event)
    requires Enabled(system, first) && Enabled(Apply(system, first), second)
    ensures Runs(system, [first, second]) && After(system, [first, second]) == Apply(Apply(system, first), second)
  {
    hide Enabled, Apply;
    var none: seq<Event> := [];
    RunStep(Apply(system, first), second, none);
    RunStep(system, first, [second]);
    assert [second] + none == [second] && [first] + [second] == [first, second];
  }

  lemma GotoTwice(system: System, w: WorkerId, first: Stage, second: Stage)
    ensures Goto(Goto(system, w, first), w, second) == Goto(system, w, second)
  {
    assert system.workers[w := first][w := second] == system.workers[w := second];
  }

  // The system once a response is stored.
  function Keeping(system: System, w: WorkerId, response: Response, full: bool): System
  {
    system.(blobs := system.blobs + {response},
            caches := if full && w.process !in system.caches then system.caches
                      else system.caches[w.process := response])
  }

  lemma Puts(system: System, w: WorkerId, full: bool)
    requires At(system, w) && system.workers[w].Storing?
    ensures Enabled(system, Put(w, true, full))
    ensures Apply(system, Put(w, true, full)) ==
            Goto(Keeping(system, w, system.workers[w].response, full),
                 w, Completing(system.workers[w].token, system.workers[w].response))
  {
  }

  lemma Repairs(system: System, w: WorkerId, full: bool)
    requires At(system, w) && system.workers[w].Repairing?
    ensures Enabled(system, Repair(w, true, full))
    ensures Apply(system, Repair(w, true, full)) ==
            Goto(Keeping(system, w, system.workers[w].response, full),
                 w, Completing(system.workers[w].token, system.workers[w].response))
  {
  }

  lemma Finishes(system: System, w: WorkerId, lost: bool)
    requires Holding(system, w) && system.workers[w].Completing?
    ensures Enabled(system, Finish(w, lost))
    ensures var response := system.workers[w].response;
            Apply(system, Finish(w, lost)) ==
            Goto(system.(store := Kept(system.store.record.(state := StateCompleted, resultRef := Ref(response)))),
                 w, Ended(if lost then Failed else Returned(response)))
  {
  }

  // A response that is stored completes the ledger; its caller gets it unless the acknowledgement is lost.
  lemma FinishTells(system: System, event: Event, w: WorkerId, response: Response, full: bool, lost: bool)
    requires Holding(system, w) && Enabled(system, event)
    requires Apply(system, event) ==
             Goto(Keeping(system, w, response, full), w, Completing(system.workers[w].token, response))
    ensures Runs(system, [event, Finish(w, lost)])
    ensures Told(system, After(system, [event, Finish(w, lost)]), w, response, full,
                 if lost then Failed else Returned(response))
  {
    hide Enabled, Apply, Runs, After;
    var stage := Completing(system.workers[w].token, response);
    Finishes(Goto(Keeping(system, w, response, full), w, stage), w, lost);
    Chain2(system, event, Finish(w, lost));
    GotoTwice(system, w, stage, Ended(if lost then Failed else Returned(response)));
  }

  lemma StoredResponseIsTold(system: System, w: WorkerId, full: bool, lost: bool)
    requires Holding(system, w) && system.workers[w].Storing?
    ensures var events := [Put(w, true, full), Finish(w, lost)];
            && Runs(system, events)
            && Told(system, After(system, events), w, system.workers[w].response, full,
                    if lost then Failed else Returned(system.workers[w].response))
  {
    hide Enabled, Apply, Runs, After, Told;
    Puts(system, w, full);
    FinishTells(system, Put(w, true, full), w, system.workers[w].response, full, lost);
  }

  // The same for a response found stored by a retry.
  lemma RepairedResponseIsTold(system: System, w: WorkerId, full: bool, lost: bool)
    requires Holding(system, w) && system.workers[w].Repairing?
    ensures var events := [Repair(w, true, full), Finish(w, lost)];
            && Runs(system, events)
            && Told(system, After(system, events), w, system.workers[w].response, full,
                    if lost then Failed else Returned(system.workers[w].response))
  {
    hide Enabled, Apply, Runs, After, Told;
    Repairs(system, w, full);
    FinishTells(system, Repair(w, true, full), w, system.workers[w].response, full, lost);
  }

  // A repair that cannot be stored leaves everything for a later one.
  lemma RefusedRepairChangesNothing(system: System, w: WorkerId, full: bool)
    requires At(system, w) && system.workers[w].Repairing?
    ensures Enabled(system, Repair(w, false, full))
    ensures Apply(system, Repair(w, false, full)) == Goto(system, w, Ended(Failed))
  {
  }

  // A step to `Storing` leads there as well.
  lemma DeliverAfter(system: System, event: Event, w: WorkerId, response: Response, full: bool)
    requires Holding(system, w) && Enabled(system, event)
    requires Apply(system, event) == Goto(system, w, Storing(system.workers[w].token, response))
    ensures Runs(system, [event, Put(w, true, full), Finish(w, false)])
    ensures Delivered(system, After(system, [event, Put(w, true, full), Finish(w, false)]), w, response, full)
  {
    hide Runs, After, Enabled, Apply;
    var next := Goto(system, w, Storing(system.workers[w].token, response));
    StoredResponseIsTold(next, w, full, false);
    RunStep(system, event, [Put(w, true, full), Finish(w, false)]);
    assert [event] + [Put(w, true, full), Finish(w, false)] == [event, Put(w, true, full), Finish(w, false)];
    assert next.workers[w := Ended(Returned(response))] == system.workers[w := Ended(Returned(response))];
  }

  lemma SuccessIsStored(system: System, w: WorkerId, response: Response, recover: bool, more: bool)
    requires At(system, w) && (system.workers[w].Waiting? || system.workers[w].Armed?)
    ensures Enabled(system, Report(w, Success(response), recover, more))
    ensures Apply(system, Report(w, Success(response), recover, more)) ==
            Goto(system, w, Storing(system.workers[w].token, response))
  {
  }

  lemma RecoveryIsStored(system: System, w: WorkerId, response: Response, lookupFailed: bool, more: bool)
    requires At(system, w) && system.workers[w].Recovering?
    ensures Enabled(system, Recover(w, Success(response), lookupFailed, more))
    ensures Apply(system, Recover(w, Success(response), lookupFailed, more)) ==
            Goto(system, w, Storing(system.workers[w].token, response))
  {
  }

  lemma PollIsStored(system: System, w: WorkerId, response: Response, lookupFailed: bool, more: bool)
    requires At(system, w) && system.workers[w].Polling?
    ensures Enabled(system, Poll(w, Success(response), lookupFailed, more))
    ensures Apply(system, Poll(w, Success(response), lookupFailed, more)) ==
            Goto(system, w, Storing(system.workers[w].token, response))
  {
  }

  /** A success that an attempt reports is returned to its caller, with the response stored and the ledger
      completed with it, once the result store and the ledger have taken it. */
  lemma ReportedSuccessIsReturned(system: System, w: WorkerId, response: Response, recover: bool, more: bool,
                                  full: bool)
    requires Holding(system, w) && (system.workers[w].Waiting? || system.workers[w].Armed?)
    ensures var events := [Report(w, Success(response), recover, more), Put(w, true, full), Finish(w, false)];
            Runs(system, events) && Delivered(system, After(system, events), w, response, full)
  {
    hide Enabled, Apply, Runs, After, Delivered;
    SuccessIsStored(system, w, response, recover, more);
    DeliverAfter(system, Report(w, Success(response), recover, more), w, response, full);
  }

  // The same for a success that a recovery by idempotency key finds, whoever makes it and whatever made it necessary.
  lemma RecoveredSuccessIsReturned(system: System, w: WorkerId, response: Response, lookupFailed: bool, more: bool,
                                   full: bool)
    requires Holding(system, w) && system.workers[w].Recovering?
    ensures var events := [Recover(w, Success(response), lookupFailed, more), Put(w, true, full), Finish(w, false)];
            Runs(system, events) && Delivered(system, After(system, events), w, response, full)
  {
    hide Enabled, Apply, Runs, After, Delivered;
    RecoveryIsStored(system, w, response, lookupFailed, more);
    DeliverAfter(system, Recover(w, Success(response), lookupFailed, more), w, response, full);
  }

  // The same for a success that a poll finds, whoever makes it.
  lemma PolledSuccessIsReturned(system: System, w: WorkerId, response: Response, lookupFailed: bool, more: bool,
                                full: bool)
    requires Holding(system, w) && system.workers[w].Polling?
    ensures var events := [Poll(w, Success(response), lookupFailed, more), Put(w, true, full), Finish(w, false)];
            Runs(system, events) && Delivered(system, After(system, events), w, response, full)
  {
    hide Enabled, Apply, Runs, After, Delivered;
    PollIsStored(system, w, response, lookupFailed, more);
    DeliverAfter(system, Poll(w, Success(response), lookupFailed, more), w, response, full);
  }

  // ----- pending work -----

  // The operation as the ledger has it once its provider operation id is bound.
  function Pended(system: System): System
    requires system.store.Kept?
  {
    system.(store := Kept(system.store.record.(state := StateProviderPending)))
  }

  lemma Persists(system: System, w: WorkerId, sameId: bool)
    requires Holding(system, w) && system.workers[w].Persisting?
    requires system.store.record.state.StateDispatching? || sameId
    ensures Enabled(system, Persist(w, sameId, false))
    ensures Apply(system, Persist(w, sameId, false)) ==
            Goto(Pended(system), w, Polling(system.workers[w].token, system.workers[w].origin))
  {
  }

  lemma PersistsAfter(system: System, event: Event, w: WorkerId, origin: Origin, sameId: bool)
    requires Holding(system, w) && Enabled(system, event)
    requires system.store.record.state.StateDispatching? || sameId
    requires Apply(system, event) == Goto(system, w, Persisting(system.workers[w].token, origin))
    ensures Runs(system, [event, Persist(w, sameId, false)])
    ensures After(system, [event, Persist(w, sameId, false)]) ==
            Goto(Pended(system), w, Polling(system.workers[w].token, origin))
  {
    hide Enabled, Apply, Runs, After;
    var token := system.workers[w].token;
    Persists(Goto(system, w, Persisting(token, origin)), w, sameId);
    Chain2(system, event, Persist(w, sameId, false));
    GotoTwice(Pended(system), w, Persisting(token, origin), Polling(token, origin));
  }

  // Accepted but unfinished work is recorded as provider_pending, and then polled by the same attempt.
  lemma PendingReportIsPolled(system: System, w: WorkerId, recover: bool, more: bool, sameId: bool)
    requires Holding(system, w) && (system.workers[w].Waiting? || system.workers[w].Armed?)
    requires system.store.record.state.StateDispatching? || sameId
    ensures var events := [Report(w, Pending, recover, more), Persist(w, sameId, false)];
            && Runs(system, events)
            && After(system, events) == Goto(Pended(system), w, Polling(system.workers[w].token, FromPlan))
  {
    PersistsAfter(system, Report(w, Pending, recover, more), w, FromPlan, sameId);
  }

  lemma PendingRecoveryIsPolled(system: System, w: WorkerId, lookupFailed: bool, more: bool, sameId: bool)
    requires Holding(system, w) && system.workers[w].Recovering?
    requires system.store.record.state.StateDispatching? || sameId
    ensures var events := [Recover(w, Pending, lookupFailed, more), Persist(w, sameId, false)];
            && Runs(system, events)
            && After(system, events) ==
               Goto(Pended(system), w, Polling(system.workers[w].token, system.workers[w].origin))
  {
    PersistsAfter(system, Recover(w, Pending, lookupFailed, more), w, system.workers[w].origin, sameId);
  }

  // Which failed polls say nothing about the operation: unmapped, to be repeated, canceled or a throttled lookup.
  predicate SaysNothing(fault: Fault, lookupFailed: bool)
  {
    match FirstMapped(fault)
    case Found(v) => v.retry.RetrySameOperation? || v.code.CodeCanceled? || (lookupFailed && v.retry.RetryAfter?)
    case Missing => true
  }

  // A poll that finds the work unfinished, or says nothing about it, changes nothing but that its caller fails.
  lemma UndecidedPollKeepsPending(system: System, w: WorkerId, report: Report, lookupFailed: bool, more: bool)
    requires At(system, w) && system.workers[w].Polling?
    requires report.Pending? || (report.Failure? && SaysNothing(report.fault, lookupFailed))
    ensures Apply(system, Poll(w, report, lookupFailed, more)) == Goto(system, w, Ended(Failed))
  {
  }

  // ----- failures -----

  // The caller fails, and the ledger has this verdict.
  predicate SettledAs(before: System, after: System, w: WorkerId, record: Record)
  {
    after == Goto(before.(store := Kept(record)), w, Ended(Failed))
  }

  function Settled(record: Record, certainty: Certainty, retryable: bool): Record
  {
    if certainty.NotDispatched? || certainty.Rejected?
    then record.(state := StateDefiniteFailed, retryable := retryable)
    else record.(state := StateAmbiguous)
  }

  lemma Settles(system: System, w: WorkerId, lost: bool)
    requires Current(system, w) && !system.store.record.state.Terminal() && system.workers[w].Settling?
    ensures Enabled(system, Settle(w, lost))
    ensures SettledAs(system, Apply(system, Settle(w, lost)), w,
                      Settled(system.store.record, system.workers[w].certainty, system.workers[w].retryable))
  {
  }

  lemma SettlesAfter(system: System, event: Event, w: WorkerId, certainty: Certainty, retryable: bool, lost: bool)
    requires Current(system, w) && !system.store.record.state.Terminal() && Enabled(system, event)
    requires Apply(system, event) == Goto(system, w, Settling(system.workers[w].token, certainty, retryable))
    ensures Runs(system, [event, Settle(w, lost)])
    ensures SettledAs(system, After(system, [event, Settle(w, lost)]), w,
                      Settled(system.store.record, certainty, retryable))
  {
    hide Enabled, Apply, Runs, After, Settled;
    var stage := Settling(system.workers[w].token, certainty, retryable);
    Settles(Goto(system, w, stage), w, lost);
    Chain2(system, event, Settle(w, lost));
    GotoTwice(system.(store := Kept(Settled(system.store.record, certainty, retryable))), w, stage, Ended(Failed));
  }

  // A denial that allows another attempt.
  predicate Reoffers(fault: Fault)
  {
    || Carries(fault, EgressDenied)
    || match FirstMapped(fault)
       case Found(v) =>
         && (v.dispatch.Rejected? || (v.dispatch.NotDispatched? && Carries(fault, PreDispatch)))
         && !v.retry.RetryNever?
       case Missing => Carries(fault, PreDispatch)
  }

  lemma RetryableIff(fault: Fault)
    ensures Retryable(Classify(fault, true)) <==> Reoffers(fault)
    ensures Classify(fault, true).dispatch.Definite() <==> Denies(fault)
  {
    MarkedFaultIsDefiniteIff(fault);
  }

  function Verdicted(record: Record, fault: Fault): Record
  {
    if Denies(fault) then record.(state := StateDefiniteFailed, retryable := Reoffers(fault))
    else record.(state := StateAmbiguous)
  }

  /** A failure that nobody takes up is settled as what the fault is evidence for: a definite failure
      exactly on a denial, reopenable exactly when the denial offers another attempt, else ambiguous. */
  lemma FailedReportSettles(system: System, w: WorkerId, fault: Fault, lost: bool)
    requires Holding(system, w) && (system.workers[w].Waiting? || system.workers[w].Armed?)
    ensures var events := [Report(w, Failure(fault), false, false), Settle(w, lost)];
            && Runs(system, events)
            && SettledAs(system, After(system, events), w, Verdicted(system.store.record, fault))
  {
    hide Classify;
    RetryableIff(fault);
    var verdict := Classify(fault, true);
    SettlesAfter(system, Report(w, Failure(fault), false, false), w, verdict.dispatch, Retryable(verdict), lost);
  }

  // The same for a failure that a recovery finds declared, which only the submitting attempt may take further.
  lemma FailedRecoverySettles(system: System, w: WorkerId, fault: Fault, more: bool, lost: bool)
    requires Holding(system, w) && system.workers[w].Recovering?
    requires more ==> !system.workers[w].origin.FromPlan?
    ensures var events := [Recover(w, Failure(fault), false, more), Settle(w, lost)];
            && Runs(system, events)
            && SettledAs(system, After(system, events), w, Verdicted(system.store.record, fault))
  {
    hide Classify;
    RetryableIff(fault);
    var verdict := Classify(fault, true);
    SettlesAfter(system, Recover(w, Failure(fault), false, more), w, verdict.dispatch, Retryable(verdict), lost);
  }

  // A poll that fails: a resumed operation takes the first mapped error's word, any other asks for evidence again.
  lemma FailedPollSettles(system: System, w: WorkerId, fault: Fault, lookupFailed: bool, more: bool, lost: bool)
    requires Holding(system, w) && system.workers[w].Polling? && !SaysNothing(fault, lookupFailed)
    requires more ==> !system.workers[w].origin.FromPlan?
    ensures var events := [Poll(w, Failure(fault), lookupFailed, more), Settle(w, lost)];
            var record, first := system.store.record, FirstMapped(fault).verdict;
            && Runs(system, events)
            && SettledAs(system, After(system, events), w,
                         if !system.workers[w].origin.FromPending? then Verdicted(record, Extracted(fault))
                         else if first.dispatch.NotDispatched? || first.dispatch.Rejected? then
                           record.(state := StateDefiniteFailed, retryable := !first.retry.RetryNever?)
                         else record.(state := StateAmbiguous))
  {
    var event := Poll(w, Failure(fault), lookupFailed, more);
    if system.workers[w].origin.FromPending? {
      var first := FirstMapped(fault).verdict;
      SettlesAfter(system, event, w, first.dispatch, Retryable(first), lost);
    } else {
      var verdict := Classify(Extracted(fault), true);
      RetryableIff(Extracted(fault));
      SettlesAfter(system, event, w, verdict.dispatch, Retryable(verdict), lost);
    }
  }

  // An answer that cannot be used says neither that the work was refused nor what came of it.
  lemma UselessAnswerIsAmbiguous(system: System, w: WorkerId, report: Report, flag: bool, more: bool, lost: bool)
    requires Holding(system, w) && (report.NotFound? || report.Invalid?)
    ensures var ambiguous := system.store.record.(state := StateAmbiguous);
            && (system.workers[w].Waiting? || system.workers[w].Armed? ==>
                  var events := [Report(w, report, flag, more), Settle(w, lost)];
                  Runs(system, events) && SettledAs(system, After(system, events), w, ambiguous))
            && (system.workers[w].Recovering? ==>
                  var events := [Recover(w, report, flag, more), Settle(w, lost)];
                  Runs(system, events) && SettledAs(system, After(system, events), w, ambiguous))
            && (system.workers[w].Polling? ==>
                  var events := [Poll(w, report, flag, more), Settle(w, lost)];
                  Runs(system, events) && SettledAs(system, After(system, events), w, ambiguous))
  {
    match system.workers[w]
    case Waiting(_, _) => SettlesAfter(system, Report(w, report, flag, more), w, Ambiguous, false, lost);
    case Armed(_) => SettlesAfter(system, Report(w, report, flag, more), w, Ambiguous, false, lost);
    case Recovering(_, _, _) => SettlesAfter(system, Recover(w, report, flag, more), w, Ambiguous, false, lost);
    case Polling(_, _) => SettlesAfter(system, Poll(w, report, flag, more), w, Ambiguous, false, lost);
    case _ =>
  }

  // A result that cannot be stored leaves accepted work of which the ledger knows no result.
  lemma UnstoredResultIsAmbiguous(system: System, w: WorkerId, full: bool, lost: bool)
    requires Holding(system, w) && system.workers[w].Storing?
    ensures var events := [Put(w, false, full), Settle(w, lost)];
            && Runs(system, events)
            && SettledAs(system, After(system, events), w, system.store.record.(state := StateAmbiguous))
  {
    SettlesAfter(system, Put(w, false, full), w, Accepted, false, lost);
  }

  lemma PersistFails(system: System, w: WorkerId, sameId: bool, lost: bool)
    requires Holding(system, w) && system.workers[w].Persisting?
    requires lost || (system.store.record.state.StateProviderPending? && !sameId)
    ensures Enabled(system, Persist(w, sameId, lost))
    ensures Apply(system, Persist(w, sameId, lost)) ==
            Goto(if system.store.record.state.StateProviderPending? then system else Pended(system),
                 w, Settling(system.workers[w].token, Accepted, false))
  {
  }

  // Work whose provider operation cannot be recorded, or not surely, ends as ambiguous although it was accepted.
  lemma UnrecordedWorkIsAmbiguous(system: System, w: WorkerId, sameId: bool, lost: bool, unheard: bool)
    requires Holding(system, w) && system.workers[w].Persisting?
    requires lost || (system.store.record.state.StateProviderPending? && !sameId)
    ensures var events := [Persist(w, sameId, lost), Settle(w, unheard)];
            && Runs(system, events)
            && SettledAs(system, After(system, events), w, system.store.record.(state := StateAmbiguous))
  {
    hide Enabled, Apply, Runs, After;
    var stage := Settling(system.workers[w].token, Accepted, false);
    var next := if system.store.record.state.StateProviderPending? then system else Pended(system);
    PersistFails(system, w, sameId, lost);
    Settles(Goto(next, w, stage), w, unheard);
    Chain2(system, Persist(w, sameId, lost), Settle(w, unheard));
    GotoTwice(system.(store := Kept(system.store.record.(state := StateAmbiguous))), w, stage, Ended(Failed));
  }

  // A call that cannot be compiled is passed over when nothing can have been sent, and settled otherwise.
  lemma CompileFaultSettles(system: System, w: WorkerId, verdict: Verdict, lost: bool)
    requires Current(system, w) && system.workers[w].Trying? && !system.store.record.state.Terminal()
    ensures Enabled(system, CompileFault(w, verdict))
    ensures verdict.dispatch.NotDispatched? ==> Apply(system, CompileFault(w, verdict)) == system
    ensures !verdict.dispatch.NotDispatched? ==>
              var events := [CompileFault(w, verdict), Settle(w, lost)];
              && Runs(system, events)
              && SettledAs(system, After(system, events), w,
                           if verdict.dispatch.Rejected?
                           then system.store.record.(state := StateDefiniteFailed,
                                                     retryable := !verdict.retry.RetryNever?)
                           else system.store.record.(state := StateAmbiguous))
  {
    if !verdict.dispatch.NotDispatched? {
      SettlesAfter(system, CompileFault(w, verdict), w, verdict.dispatch, Retryable(verdict), lost);
    }
  }

  // ----- the next candidate -----

  function NextToken(token: Token): Token
  {
    token.(continues := token.continues + 1)
  }

  lemma ReportFalls(system: System, w: WorkerId, fault: Fault)
    requires At(system, w) && (system.workers[w].Waiting? || system.workers[w].Armed?) && Reoffers(fault)
    ensures Enabled(system, Report(w, Failure(fault), false, true))
    ensures Apply(system, Report(w, Failure(fault), false, true)) ==
            Goto(system, w, Falling(system.workers[w].token))
  {
    hide Classify;
    RetryableIff(fault);
  }

  // The operation reserved for the next candidate, or ended when the budget denies it.
  function Continued(record: Record, granted: bool, leaseUntil: Time): Record
  {
    if granted then record.(state := StateReserved, token := NextToken(record.token), leaseUntil := leaseUntil)
    else record.(state := StateDefiniteFailed)
  }

  lemma Falls(system: System, w: WorkerId, granted: bool, leaseUntil: Time)
    requires Current(system, w) && system.workers[w].Falling? && system.store.record.state.StateDispatching?
    ensures Enabled(system, Fall(w, granted, false, leaseUntil))
    ensures var record := Continued(system.store.record, granted, leaseUntil);
            Apply(system, Fall(w, granted, false, leaseUntil)) ==
            Goto(system.(store := Kept(record)), w, if granted then Trying(record.token) else Ended(Failed))
  {
  }

  /** A denial that offers another attempt, with a candidate left, reserves the operation again under the
      next token for it; without budget it ends the operation as a definite failure. */
  lemma DeniedReportFallsBack(system: System, w: WorkerId, fault: Fault, granted: bool, leaseUntil: Time)
    requires Holding(system, w) && (system.workers[w].Waiting? || system.workers[w].Armed?)
    requires system.store.record.state.StateDispatching? && Reoffers(fault)
    ensures var events := [Report(w, Failure(fault), false, true), Fall(w, granted, false, leaseUntil)];
            var record := Continued(system.store.record, granted, leaseUntil);
            && Runs(system, events)
            && After(system, events) ==
               Goto(system.(store := Kept(record)), w, if granted then Trying(record.token) else Ended(Failed))
  {
    hide Enabled, Apply, Runs, After, Reoffers;
    var stage := Falling(system.workers[w].token);
    ReportFalls(system, w, fault);
    Falls(Goto(system, w, stage), w, granted, leaseUntil);
    Chain2(system, Report(w, Failure(fault), false, true), Fall(w, granted, false, leaseUntil));
    var record := Continued(system.store.record, granted, leaseUntil);
    GotoTwice(system.(store := Kept(record)), w, stage, if granted then Trying(record.token) else Ended(Failed));
  }

  // A failure that is no denial is looked up by idempotency key first, where the adapter can.
  lemma UndeniedReportIsRecovered(system: System, w: WorkerId, fault: Fault, more: bool)
    requires Holding(system, w) && (system.workers[w].Waiting? || system.workers[w].Armed?) && !Denies(fault)
    ensures Apply(system, Report(w, Failure(fault), true, more)) ==
            Goto(system, w, Recovering(system.workers[w].token, FromPlan, Classify(fault, true)))
  {
    hide Classify;
    RetryableIff(fault);
  }

  lemma Closes(system: System, w: WorkerId, canceled: bool)
    requires At(system, w) && system.workers[w].Trying?
    ensures Enabled(system, Close(w, canceled))
    ensures Apply(system, Close(w, canceled)) == Goto(system, w, Closing(system.workers[w].token, canceled))
  {
  }

  lemma CloseMarks(system: System, w: WorkerId)
    requires At(system, w) && system.workers[w].Closing? && system.workers[w].token == system.store.record.token
    requires system.store.record.state.StateReserved?
    ensures Enabled(system, CloseMark(w, false))
    ensures Apply(system, CloseMark(w, false)) ==
            Goto(system.(store := Kept(system.store.record.(state := StateDispatching, leaseUntil := system.now))),
                 w, Closed(system.workers[w].token))
  {
  }

  lemma CloseFails(system: System, w: WorkerId, lost: bool)
    requires Holding(system, w) && system.workers[w].Closed?
    ensures Enabled(system, CloseFail(w, lost))
    ensures SettledAs(system, Apply(system, CloseFail(w, lost)), w,
                      system.store.record.(state := StateDefiniteFailed, retryable := false))
  {
  }

  // A plan that nobody was tried under ends as a definite failure that is not reopened.
  lemma NothingDispatchedEnds(system: System, w: WorkerId, canceled: bool, lost: bool)
    requires At(system, w) && system.workers[w] == Trying(system.store.record.token)
    requires system.store.record.state.StateReserved?
    ensures var events := [Close(w, canceled), CloseMark(w, false), CloseFail(w, lost)];
            && Runs(system, events)
            && SettledAs(system, After(system, events), w,
                         system.store.record.(state := StateDefiniteFailed, retryable := false,
                                              leaseUntil := system.now))
  {
    hide Enabled, Apply, Runs, After;
    var token := system.store.record.token;
    var marked := system.(store := Kept(system.store.record.(state := StateDispatching, leaseUntil := system.now)));
    var s1, s2 := Goto(system, w, Closing(token, canceled)), Goto(marked, w, Closed(token));
    Closes(system, w, canceled);
    CloseMarks(s1, w);
    GotoTwice(marked, w, Closing(token, canceled), Closed(token));
    CloseFails(s2, w, lost);
    Chain3(system, Close(w, canceled), CloseMark(w, false), CloseFail(w, lost), s1, s2);
    GotoTwice(system.(store := Kept(marked.store.record.(state := StateDefiniteFailed, retryable := false))),
              w, Closed(token), Ended(Failed));
  }

  // ----- steps that are not acknowledged -----

  // The store with the operation marked, if this token can mark it.
  function Marked(system: System, token: Token, leaseUntil: Time): System
    requires system.store.Kept?
  {
    if system.store.record.token == token && system.store.record.state.StateReserved?
    then system.(store := Kept(system.store.record.(state := StateDispatching, leaseUntil := leaseUntil)))
    else system
  }

  // The mark is refused to an old token and while the operation is out at the provider.
  predicate Refuses(record: Record, token: Token)
  {
    record.token != token || record.state.StateDispatching? || record.state.StateProviderPending?
  }

  // Without an acknowledged mark nothing is sent: the attempt goes on to the next candidate.
  lemma UnheardMarkTriesOn(system: System, w: WorkerId, lost: bool, leaseUntil: Time)
    requires At(system, w) && system.workers[w].Trying?
    requires lost || Refuses(system.store.record, system.workers[w].token)
    ensures Enabled(system, Mark(w, lost, leaseUntil))
    ensures Apply(system, Mark(w, lost, leaseUntil)) ==
            Goto(Marked(system, system.workers[w].token, leaseUntil), w, Trying(system.workers[w].token))
  {
  }

  // Closing a plan without an acknowledged mark ends there, but for a cancellation, which settles all the same.
  lemma UnheardCloseEnds(system: System, w: WorkerId, lost: bool)
    requires At(system, w) && system.workers[w].Closing?
    requires lost || Refuses(system.store.record, system.workers[w].token)
    ensures Enabled(system, CloseMark(w, lost))
    ensures Apply(system, CloseMark(w, lost)) ==
            Goto(Marked(system, system.workers[w].token, system.now), w,
                 if system.workers[w].canceled then Closed(system.workers[w].token) else Ended(Failed))
  {
  }

  // A fallback that is not acknowledged leaves the reservation for a later request.
  lemma UnheardFallbackEnds(system: System, w: WorkerId, leaseUntil: Time)
    requires Current(system, w) && system.workers[w].Falling? && system.store.record.state.StateDispatching?
    ensures Enabled(system, Fall(w, true, true, leaseUntil))
    ensures var next := NextToken(system.store.record.token);
            Apply(system, Fall(w, true, true, leaseUntil)) ==
            Goto(system.(store := Kept(system.store.record.(state := StateReserved, token := next,
                                                            leaseUntil := leaseUntil))),
                 w, Ended(Failed))
  {
  }
}
