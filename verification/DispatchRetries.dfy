/** What a new request for the operation meets, by the state the ledger is in, and when it can still be answered
    (golang/engine/generate.go, golang/engine/resumable.go). */
module DispatchRetries {
  import opened ProviderErrors
  import opened AdmissionRecord
  import opened DispatchMachine
  import opened DispatchStorage
  import opened DispatchLimits
  import opened DispatchLedger
  import opened DispatchResults
  import opened DispatchProgress

  // A request in a new call, up to what beginOrResume makes of it.
  function Request(v: WorkerId, digest: Digest, granted: bool, leaseUntil: Time, expiresAt: Time): seq<Event>
  {
    [Spawn(v, digest), Begin(v, granted, leaseUntil, expiresAt)]
  }

  lemma RequestBegins(system: System, v: WorkerId, digest: Digest, granted: bool, leaseUntil: Time, expiresAt: Time)
    requires v !in system.workers
    ensures Runs(system, Request(v, digest, granted, leaseUntil, expiresAt))
    ensures After(system, Request(v, digest, granted, leaseUntil, expiresAt)) ==
            Beginning(Goto(system, v, Planning(digest)), v, granted, leaseUntil, expiresAt)
  {
    Chain2(system, Spawn(v, digest), Begin(v, granted, leaseUntil, expiresAt));
  }

  // The worker's stage, and the record that is reserved for it if one is.
  datatype Meeting = Finds(stage: Stage) | Reserves(record: Record)

  function First(digest: Digest, reopens: nat, leaseUntil: Time, expiresAt: Time): Record
  {
    Record(StateReserved, Token(reopens, 0), digest, leaseUntil, expiresAt, false, NoRef)
  }

  function Met(store: Stored, now: Time, digest: Digest, granted: bool, leaseUntil: Time, expiresAt: Time): Meeting
  {
    match store
    case NoRecord => if granted then Reserves(First(digest, 0, leaseUntil, expiresAt)) else Finds(Ended(Failed))
    case Kept(record) =>
      if record.digest != digest then Finds(Ended(Failed))
      else match record.state
        case StateReserved =>
          Finds(if record.leaseUntil != 0 && now < record.leaseUntil then Ended(Failed) else Trying(record.token))
        case StateDispatching => Finds(Resolving(StateDispatching, record.token))
        case StateProviderPending => Finds(Polling(record.token, FromPending))
        case StateCompleted => Finds(Resolving(StateCompleted, record.token))
        case StateDefiniteFailed =>
          if record.retryable && granted
          then Reserves(First(digest, record.token.reopens + 1, leaseUntil, expiresAt))
          else Finds(Ended(Failed))
        case StateAmbiguous => Finds(Ended(Failed))
        case StateCanceled => Finds(Ended(Failed))
  }

  function Entered(system: System, v: WorkerId, meeting: Meeting): System
  {
    match meeting
    case Finds(stage) => Goto(system, v, stage)
    case Reserves(record) => Goto(system.(store := Kept(record)), v, Trying(record.token))
  }

  lemma BeginningMeets(system: System, v: WorkerId, granted: bool, leaseUntil: Time, expiresAt: Time)
    requires v in system.workers && system.workers[v].Planning?
    ensures Beginning(system, v, granted, leaseUntil, expiresAt) ==
            Entered(system, v,
                    Met(system.store, system.now, system.workers[v].digest, granted, leaseUntil, expiresAt))
  {
  }

  lemma EnteredTwice(system: System, v: WorkerId, stage: Stage, meeting: Meeting)
    ensures Entered(Goto(system, v, stage), v, meeting) == Entered(system, v, meeting)
  {
    match meeting
    case Finds(found) => GotoTwice(system, v, stage, found);
    case Reserves(record) => GotoTwice(system.(store := Kept(record)), v, stage, Trying(record.token));
  }

  /** What a request meets. A new operation, and a failed one that is reopenable, is reserved for it under the
      first token of that opening; a lapsed reservation is taken over; pending work is polled; a digest
      conflict, a live lease and every other terminal state fail it, and change nothing else. */
  lemma RequestMeets(system: System, v: WorkerId, digest: Digest, granted: bool, leaseUntil: Time, expiresAt: Time)
    requires v !in system.workers
    ensures Runs(system, Request(v, digest, granted, leaseUntil, expiresAt))
    ensures After(system, Request(v, digest, granted, leaseUntil, expiresAt)) ==
            Entered(system, v, Met(system.store, system.now, digest, granted, leaseUntil, expiresAt))
  {
    hide Runs, After, Met, Entered, Beginning;
    RequestBegins(system, v, digest, granted, leaseUntil, expiresAt);
    BeginningMeets(Goto(system, v, Planning(digest)), v, granted, leaseUntil, expiresAt);
    EnteredTwice(system, v, Planning(digest), Met(system.store, system.now, digest, granted, leaseUntil, expiresAt));
  }

  // ----- a submission from its reservation to its answer -----

  // The operation is marked, its one request is written, and the provider answers it.
  function Sent(system: System, w: WorkerId, leaseUntil: Time, fate: Fate): System
    requires At(system, w) && system.workers[w].Trying?
  {
    var token := system.workers[w].token;
    Goto(system.(store := Kept(system.store.record.(state := StateDispatching, leaseUntil := leaseUntil)),
                 sends := system.sends + [Send(token, fate)]),
         w, Waiting(token, |system.sends|))
  }

  function Sending(system: System, w: WorkerId, leaseUntil: Time): seq<Event>
  {
    [Mark(w, false, leaseUntil), Write(w), Take(|system.sends|)]
  }

  lemma Marks(system: System, w: WorkerId, leaseUntil: Time)
    requires At(system, w) && system.workers[w] == Trying(system.store.record.token)
    requires system.store.record.state.StateReserved?
    ensures Enabled(system, Mark(w, false, leaseUntil))
    ensures Apply(system, Mark(w, false, leaseUntil)) ==
            Goto(system.(store := Kept(system.store.record.(state := StateDispatching, leaseUntil := leaseUntil))),
                 w, Armed(system.store.record.token))
  {
  }

  lemma Writes(system: System, w: WorkerId)
    requires At(system, w) && system.workers[w].Armed?
    ensures Enabled(system, Write(w))
    ensures Apply(system, Write(w)) ==
            Goto(system.(sends := system.sends + [Send(system.workers[w].token, InFlight)]),
                 w, Waiting(system.workers[w].token, |system.sends|))
  {
  }

  lemma Decides(system: System, i: nat, response: Response)
    requires i < |system.sends|
    ensures system.sends[i].fate.InFlight? ==>
              Enabled(system, Take(i)) && Apply(system, Take(i)) == Decided(system, i, Taken)
    ensures system.sends[i].fate.Taken? ==>
              && Enabled(system, Answer(i, response))
              && Apply(system, Answer(i, response)) == Decided(system, i, Answered(response))
  {
  }

  lemma LastFate(system: System, w: WorkerId, leaseUntil: Time, before: Fate, after: Fate)
    requires At(system, w) && system.workers[w].Trying?
    ensures Decided(Sent(system, w, leaseUntil, before), |system.sends|, after) == Sent(system, w, leaseUntil, after)
  {
    var token := system.workers[w].token;
    assert (system.sends + [Send(token, before)])[|system.sends| := Send(token, after)] ==
           system.sends + [Send(token, after)];
  }

  lemma SubmissionIsTaken(system: System, w: WorkerId, leaseUntil: Time)
    requires At(system, w) && system.workers[w] == Trying(system.store.record.token)
    requires system.store.record.state.StateReserved?
    ensures Runs(system, Sending(system, w, leaseUntil))
    ensures After(system, Sending(system, w, leaseUntil)) == Sent(system, w, leaseUntil, Taken)
  {
    hide Enabled, Apply, Runs, After, Decided;
    var token := system.store.record.token;
    Marks(system, w, leaseUntil);
    var marked := Apply(system, Mark(w, false, leaseUntil));
    Writes(marked, w);
    var written := Sent(system, w, leaseUntil, InFlight);
    GotoTwice(system.(store := marked.store, sends := written.sends), w, Armed(token),
              Waiting(token, |system.sends|));
    assert Apply(marked, Write(w)) == written;
    Decides(written, |system.sends|, 0);
    LastFate(system, w, leaseUntil, InFlight, Taken);
    Chain3(system, Mark(w, false, leaseUntil), Write(w), Take(|system.sends|), marked, written);
  }

  function Answering(system: System, w: WorkerId, response: Response): seq<Event>
  {
    [Answer(|system.sends|, response), Report(w, Success(response), false, false), Put(w, true, false),
     Finish(w, false)]
  }

  /** From a reservation under its token, an attempt that is let through submits once, and the answer is
      stored, completes the ledger and is returned. */
  lemma SubmissionIsReturned(system: System, w: WorkerId, leaseUntil: Time, response: Response)
    requires At(system, w) && system.workers[w] == Trying(system.store.record.token)
    requires system.store.record.state.StateReserved?
    ensures var events := Sending(system, w, leaseUntil) + Answering(system, w, response);
            && Runs(system, events)
            && Delivered(Sent(system, w, leaseUntil, Answered(response)), After(system, events), w, response, false)
  {
    hide Enabled, Apply, Runs, After, Decided, Delivered;
    var taken := Sent(system, w, leaseUntil, Taken);
    var answered := Sent(system, w, leaseUntil, Answered(response));
    var rest := [Report(w, Success(response), false, false), Put(w, true, false), Finish(w, false)];
    SubmissionIsTaken(system, w, leaseUntil);
    Decides(taken, |system.sends|, response);
    LastFate(system, w, leaseUntil, Taken, Answered(response));
    ReportedSuccessIsReturned(answered, w, response, false, false, false);
    RunStep(taken, Answer(|system.sends|, response), rest);
    assert [Answer(|system.sends|, response)] + rest == Answering(system, w, response);
    Concatenate(system, Sending(system, w, leaseUntil), Answering(system, w, response));
  }

  /** What a request finds in the result store: a completed operation's response, a dispatching one's to repair it
      with or, without one, the need to recover it, and nothing at all when the store cannot be read. */
  lemma ResultIsResolved(system: System, v: WorkerId, readable: bool)
    requires At(system, v) && system.workers[v].Resolving?
    ensures Enabled(system, Resolve(v, readable))
    ensures var stage, result := system.workers[v], Fetched(system, v.process);
            Apply(system, Resolve(v, readable)) ==
            Goto(system, v,
                 if !readable || (stage.found.StateCompleted? && result.NoResult?) then Ended(Failed)
                 else if stage.found.StateCompleted? then Ended(Returned(result.response))
                 else if result.Saved? then Repairing(stage.token, result.response)
                 else Recovering(stage.token, FromDispatching, Verdict(CodeAmbiguousDispatch, Ambiguous, RetryNever)))
  {
    hide Fetched;
  }

  // ----- another request under the same operation -----

  // The request was made with another digest than the operation's, and has got nowhere.
  predicate Conflicts(system: System, v: WorkerId, digest: Digest)
  {
    && system.store.Kept? && system.store.record.digest != digest
    && (v in system.workers ==> system.workers[v] == Planning(digest) || system.workers[v] == Ended(Failed))
  }

  lemma LedgerKeepsDigest()
    ensures forall r, t, l :: MarkDispatching(r, t, l).Done? ==> MarkDispatching(r, t, l).record.digest == r.digest
    ensures forall r, t, b :: MarkProviderPending(r, t, b).Done? ==>
              MarkProviderPending(r, t, b).record.digest == r.digest
    ensures forall r, t, x :: Complete(r, t, x).Done? ==> Complete(r, t, x).record.digest == r.digest
    ensures forall r, t, c, b :: Fail(r, t, c, b).Done? ==> Fail(r, t, c, b).record.digest == r.digest
    ensures forall r, t, b, l :: Continue(r, t, b, l).Done? ==> Continue(r, t, b, l).record.digest == r.digest
  {
  }

  lemma DigestStays(system: System, event: Event)
    requires Enabled(system, event) && system.store.Kept?
    ensures Apply(system, event).store.Kept? && Apply(system, event).store.record.digest == system.store.record.digest
  {
    hide Classify, PollVerdict, AfterReport, AfterPoll, AfterVerdict, Fetched, Existing;
    hide Complete, Fail, Continue, MarkDispatching, MarkProviderPending;
    LedgerKeepsDigest();
  }

  lemma ConflictStep(system: System, event: Event, v: WorkerId, digest: Digest)
    requires Enabled(system, event) && Conflicts(system, v, digest) && !(event.Spawn? && event.worker == v)
    ensures Conflicts(Apply(system, event), v, digest)
  {
    hide Classify, PollVerdict, AfterReport, AfterPoll, AfterVerdict, Fetched;
    hide Complete, Fail, Continue, MarkDispatching, MarkProviderPending;
    DigestStays(system, event);
  }

  // A call that conflicts with the operation's request never gets its response, whatever happens.
  lemma {:induction false} ConflictIsNeverAnswered(system: System, events: seq<Event>, v: WorkerId, digest: Digest)
    requires Runs(system, events) && Conflicts(system, v, digest)
    requires forall i :: 0 <= i < |events| ==> !(events[i].Spawn? && events[i].worker == v)
    ensures Conflicts(After(system, events), v, digest)
    decreases |events|
  {
    if events != [] {
      ConflictStep(system, events[0], v, digest);
      ConflictIsNeverAnswered(Apply(system, events[0]), events[1..], v, digest);
    }
  }

  // A completed operation is replayed exactly to identical requests before it expires.
  lemma ReplaysIff(system: System, v: WorkerId, digest: Digest, readable: bool)
    requires At(system, v) && system.workers[v] == Planning(digest) && system.store.record.state.StateCompleted?
    ensures Enabled(system, Replay(v, readable)) <==>
              && system.store.record.digest == digest
              && (system.store.record.expiresAt == 0 || system.now < system.store.record.expiresAt)
  {
  }

  // ----- whether a request can still be answered -----

  // Failed for good: the ledger has a terminal state without a result that is not reopened.
  predicate Dead(record: Record)
  {
    || record.state.StateAmbiguous? || record.state.StateCanceled?
    || (record.state.StateDefiniteFailed? && !record.retryable)
  }

  ghost predicate Answers(system: System, events: seq<Event>, v: WorkerId)
  {
    && Runs(system, events) && v in After(system, events).workers
    && var stage := After(system, events).workers[v]; stage.Ended? && stage.outcome.Returned?
  }

  lemma AnswersAfter(system: System, first: seq<Event>, rest: seq<Event>, v: WorkerId)
    requires Runs(system, first) && Answers(After(system, first), rest, v)
    ensures Answers(system, first + rest, v)
  {
    hide Runs, After;
    Concatenate(system, first, rest);
  }

  lemma Stays(system: System)
    ensures Runs(system, []) && After(system, []) == system
  {
  }

  lemma DeliveryAnswers(system: System, events: seq<Event>, v: WorkerId, response: Response, full: bool)
    requires Runs(system, events) && Delivered(system, After(system, events), v, response, full)
    ensures Answers(system, events, v)
  {
    hide Runs, After;
  }

  lemma ReservationAnswers(system: System, v: WorkerId) returns (events: seq<Event>)
    requires At(system, v) && system.workers[v] == Trying(system.store.record.token)
    requires system.store.record.state.StateReserved?
    ensures Answers(system, events, v)
  {
    hide Runs, After;
    SubmissionIsReturned(system, v, 0, 0);
    events := Sending(system, v, 0) + Answering(system, v, 0);
  }

  lemma NewOperationAnswers(system: System, v: WorkerId, digest: Digest) returns (events: seq<Event>)
    requires v !in system.workers
    requires system.store.Kept? ==>
               && system.store.record.digest == digest
               && system.store.record.state.StateDefiniteFailed? && system.store.record.retryable
    ensures Answers(system, events, v)
  {
    hide Runs, After, Answers;
    RequestMeets(system, v, digest, true, 0, 0);
    var request := Request(v, digest, true, 0, 0);
    var rest := ReservationAnswers(After(system, request), v);
    AnswersAfter(system, request, rest, v);
    events := request + rest;
  }

  // A reservation is taken over once its lease has lapsed.
  lemma ReservedOperationAnswers(system: System, v: WorkerId) returns (events: seq<Event>)
    requires v !in system.workers && system.store.Kept? && system.store.record.state.StateReserved?
    ensures Answers(system, events, v)
  {
    hide Runs, After, Answers;
    var record := system.store.record;
    var wait := Tick(if system.now < record.leaseUntil then record.leaseUntil - system.now else 0);
    var later := Apply(system, wait);
    var none: seq<Event> := [];
    RunStep(system, wait, none);
    RequestMeets(later, v, record.digest, true, 0, 0);
    var request := Request(v, record.digest, true, 0, 0);
    var rest := ReservationAnswers(After(later, request), v);
    AnswersAfter(later, request, rest, v);
    assert After(later, none) == later by { Stays(later); }
    AnswersAfter(system, [wait] + none, request + rest, v);
    events := [wait] + none + (request + rest);
  }

  lemma PendingOperationAnswers(system: System, v: WorkerId) returns (events: seq<Event>)
    requires v !in system.workers && system.store.Kept? && system.store.record.state.StateProviderPending?
    ensures Answers(system, events, v)
  {
    hide Runs, After, Answers;
    var request := Request(v, system.store.record.digest, true, 0, 0);
    RequestMeets(system, v, system.store.record.digest, true, 0, 0);
    PolledSuccessIsReturned(After(system, request), v, 0, false, false, false);
    var rest := [Poll(v, Success(0), false, false), Put(v, true, false), Finish(v, false)];
    assert Answers(After(system, request), rest, v) by { DeliveryAnswers(After(system, request), rest, v, 0, false); }
    AnswersAfter(system, request, rest, v);
    events := request + rest;
  }

  lemma Resolves(system: System, v: WorkerId)
    requires At(system, v) && system.workers[v].Resolving?
    ensures Enabled(system, Resolve(v, true)) && Apply(system, Resolve(v, true)) == Resolved(system, v, true)
  {
  }

  // A dispatching operation is repaired from what the process remembers, or recovered by its idempotency key.
  lemma DispatchingOperationAnswers(system: System, v: WorkerId) returns (events: seq<Event>)
    requires v !in system.workers && Backed(system)
    requires system.store.Kept? && system.store.record.state.StateDispatching?
    ensures Answers(system, events, v)
  {
    hide Runs, After, Enabled, Apply;
    if v.process in system.caches {
      var first := RepairingRun(system, v);
      var rest := CompletingRun(After(system, first), v);
      AnswersAfter(system, first, rest, v);
      events := first + rest;
    } else {
      var request := Request(v, system.store.record.digest, true, 0, 0);
      RequestMeets(system, v, system.store.record.digest, true, 0, 0);
      var met := After(system, request);
      Resolves(met, v);
      var found := Apply(met, Resolve(v, true));
      RecoveredSuccessIsReturned(found, v, 0, false, false, false);
      var rest := [Recover(v, Success(0), false, false), Put(v, true, false), Finish(v, false)];
      RunStep(met, Resolve(v, true), rest);
      AnswersAfter(system, request, [Resolve(v, true)] + rest, v);
      events := request + ([Resolve(v, true)] + rest);
    }
  }

  lemma CompletedOperationAnswers(system: System, v: WorkerId) returns (events: seq<Event>)
    requires v !in system.workers && Backed(system)
    requires system.store.Kept? && system.store.record.state.StateCompleted?
    ensures Answers(system, events, v)
  {
    hide Runs, After, Enabled, Apply;
    var request := Request(v, system.store.record.digest, true, 0, 0);
    RequestMeets(system, v, system.store.record.digest, true, 0, 0);
    var met := After(system, request);
    var none: seq<Event> := [];
    Resolves(met, v);
    Stays(Apply(met, Resolve(v, true)));
    RunStep(met, Resolve(v, true), none);
    AnswersAfter(system, request, [Resolve(v, true)] + none, v);
    events := request + ([Resolve(v, true)] + none);
  }

  predicate Unanswered(system: System, v: WorkerId)
  {
    && system.store.Kept? && Dead(system.store.record)
    && (v in system.workers ==> system.workers[v].Planning? || system.workers[v] == Ended(Failed))
  }

  lemma DeadStep(system: System, event: Event, v: WorkerId)
    requires Enabled(system, event) && Unanswered(system, v)
    ensures Unanswered(Apply(system, event), v)
  {
    hide Classify, PollVerdict, AfterReport, AfterPoll, AfterVerdict, Fetched;
    hide Complete, Fail, Continue, MarkDispatching, MarkProviderPending, ValidTransition;
    StepFollowsLedger(system, event);
  }

  lemma {:induction false} DeadStays(system: System, events: seq<Event>, v: WorkerId)
    requires Runs(system, events) && Unanswered(system, v)
    ensures Unanswered(After(system, events), v)
    decreases |events|
  {
    if events != [] {
      DeadStep(system, events[0], v);
      DeadStays(Apply(system, events[0]), events[1..], v);
    }
  }

  lemma DeadIsUnanswered(system: System, events: seq<Event>, v: WorkerId)
    requires system.store.Kept? && Dead(system.store.record) && v !in system.workers
    ensures !Answers(system, events, v)
  {
    if Runs(system, events) {
      DeadStays(system, events, v);
    }
  }

  /** After any run whatsoever, a new identical request can still be answered, by some continuation,
      unless the ledger has the operation as failed for good; then no continuation answers it. */
  lemma AnswerableIff(run: seq<Event>, v: WorkerId)
    requires Runs(Initial, run) && v !in After(Initial, run).workers
    ensures var system := After(Initial, run);
            (exists events :: Answers(system, events, v)) <==> !(system.store.Kept? && Dead(system.store.record))
  {
    hide Answers, Runs;
    var system := After(Initial, run);
    if system.store.Kept? && Dead(system.store.record) {
      forall events
        ensures !Answers(system, events, v)
      {
        DeadIsUnanswered(system, events, v);
      }
    } else {
      RunKeepsBacked(Initial, run);
      var events: seq<Event>;
      if system.store.NoRecord? || system.store.record.state.StateDefiniteFailed? {
        events := NewOperationAnswers(system, v, if system.store.Kept? then system.store.record.digest else 0);
      } else if system.store.record.state.StateReserved? {
        events := ReservedOperationAnswers(system, v);
      } else if system.store.record.state.StateDispatching? {
        events := DispatchingOperationAnswers(system, v);
      } else if system.store.record.state.StateProviderPending? {
        events := PendingOperationAnswers(system, v);
      } else {
        events := CompletedOperationAnswers(system, v);
      }
    }
  }
}
