/** Any number of workers running Engine.Generate for one operation, over the shared admission store,
    the result store and the provider (golang/engine/generate.go, attempt.go, resumable.go,
    finalize.go, golang/internal/runtime/result_store.go).

    Every event is one atomic store operation, one provider action or one local decision, so a run
    interleaves workers freely. A worker may crash anywhere, and `lost` marks an acknowledgement
    that never reached it although the store committed. Responses are stored as content-addressed
    blobs; which of them belongs to the operation is known from the ledger once it is completed,
    and before that only from the memory of the process that stored it. */
module DispatchMachine {
  import opened ProviderErrors
  import opened AdmissionRecord

  type ProcessId = nat

  // One call of Engine.Generate in one worker process.
  datatype WorkerId = WorkerId(process: ProcessId, call: nat)

  datatype Fate = InFlight | Taken | Answered(response: Response) | Refusal {
    predicate Open() {
      InFlight? || Taken?
    }
  }

  /** One request written to a provider under a dispatch token, and what the provider did with it:
      took it, answered it, or refused or abandoned it, with nothing outstanding. */
  datatype Send = Send(token: Token, fate: Fate) {
    predicate Live() {
      !fate.Refusal?
    }
  }

  datatype Outcome = Returned(response: Response) | Failed

  /** Who makes a lookup: the dispatchPlan loop, which may fall back to the next candidate, or a retry
      that resumed a dispatching or a provider_pending operation, which may not. */
  datatype Origin = FromPlan | FromDispatching | FromPending

  // Where a worker stands. A recovery keeps the verdict that made it necessary.
  datatype Stage =
    | Planning(digest: Digest)
    | Resolving(found: OperationState, token: Token)
    | Repairing(token: Token, response: Response)
    | Trying(token: Token)
    | Armed(token: Token)
    | Waiting(token: Token, send: nat)
    | Recovering(token: Token, origin: Origin, verdict: Verdict)
    | Persisting(token: Token, origin: Origin)
    | Polling(token: Token, origin: Origin)
    | Settling(token: Token, certainty: Certainty, retryable: bool)
    | Falling(token: Token)
    | Storing(token: Token, response: Response)
    | Completing(token: Token, response: Response)
    | Closing(token: Token, canceled: bool)
    | Closed(token: Token)
    | Ended(outcome: Outcome)

  datatype Stored = NoRecord | Kept(record: Record)
  datatype Result = NoResult | Saved(response: Response)

  /** `blobs` are the responses in the blob store, and `caches` holds, for each process, the reference it
      remembers for the operation. A reference is a content digest, so it is written as what it names. */
  datatype System = System(
    store: Stored,
    caches: map<ProcessId, Response>,
    blobs: set<Response>,
    now: Time,
    sends: seq<Send>,
    workers: map<WorkerId, Stage>)

  // What an adapter call (Invoke, Submit, Poll or RecoverByIdempotencyKey) reports.
  datatype Report =
    | Success(response: Response)
    | Pending
    | NotFound
    | Invalid
    | Failure(fault: Fault)

  datatype Event =
    | Tick(elapsed: nat)
    | Spawn(worker: WorkerId, digest: Digest)
    | Crash(worker: WorkerId)
    | Forget(process: ProcessId)
    | Replay(worker: WorkerId, readable: bool)
    | Begin(worker: WorkerId, granted: bool, leaseUntil: Time, expiresAt: Time)
    | Resolve(worker: WorkerId, readable: bool)
    | Repair(worker: WorkerId, accepted: bool, full: bool)
    | CompileFault(worker: WorkerId, verdict: Verdict)
    | Mark(worker: WorkerId, lost: bool, leaseUntil: Time)
    | Write(worker: WorkerId)
    | Take(send: nat)
    | Answer(send: nat, response: Response)
    | Refuse(send: nat)
    | Report(worker: WorkerId, report: Report, recover: bool, more: bool)
    | Recover(worker: WorkerId, report: Report, lookupFailed: bool, more: bool)
    | Persist(worker: WorkerId, sameId: bool, lost: bool)
    | Poll(worker: WorkerId, report: Report, lookupFailed: bool, more: bool)
    | Settle(worker: WorkerId, lost: bool)
    | Fall(worker: WorkerId, granted: bool, lost: bool, leaseUntil: Time)
    | Put(worker: WorkerId, accepted: bool, full: bool)
    | Finish(worker: WorkerId, lost: bool)
    | Close(worker: WorkerId, canceled: bool)
    | CloseMark(worker: WorkerId, lost: bool)
    | CloseFail(worker: WorkerId, lost: bool)

  const Initial := System(NoRecord, map[], {}, 0, [], map[])

  function Goto(system: System, worker: WorkerId, stage: Stage): System
  {
    system.(workers := system.workers[worker := stage])
  }

  predicate At(system: System, worker: WorkerId)
  {
    worker in system.workers && system.store.Kept?
  }

  predicate Holds(stage: Stage)
  {
    !stage.Planning? && !stage.Ended?
  }

  predicate Enabled(system: System, event: Event)
  {
    match event
    case Tick(_) => true
    case Spawn(w, _) => w !in system.workers
    case Crash(w) => w in system.workers
    case Forget(_) => true
    case Replay(w, _) =>
      && At(system, w) && system.workers[w].Planning?
      && Replayable(system.store.record, system.workers[w].digest, system.now)
    case Begin(w, _, _, _) => w in system.workers && system.workers[w].Planning?
    case Resolve(w, _) => At(system, w) && system.workers[w].Resolving?
    case Repair(w, _, _) => At(system, w) && system.workers[w].Repairing?
    case CompileFault(w, _) => At(system, w) && system.workers[w].Trying?
    case Mark(w, _, _) => At(system, w) && system.workers[w].Trying?
    case Write(w) => At(system, w) && system.workers[w].Armed?
    case Take(i) => i < |system.sends| && system.sends[i].fate.InFlight?
    case Answer(i, _) => i < |system.sends| && system.sends[i].fate.Taken?
    case Refuse(i) => i < |system.sends| && system.sends[i].fate.Open()
    case Report(w, _, _, _) => At(system, w) && (system.workers[w].Armed? || system.workers[w].Waiting?)
    case Recover(w, _, _, _) => At(system, w) && system.workers[w].Recovering?
    case Persist(w, _, _) => At(system, w) && system.workers[w].Persisting?
    case Poll(w, _, _, _) => At(system, w) && system.workers[w].Polling?
    case Settle(w, _) => At(system, w) && system.workers[w].Settling?
    case Fall(w, _, _, _) => At(system, w) && system.workers[w].Falling?
    case Put(w, _, _) => At(system, w) && system.workers[w].Storing?
    case Finish(w, _) => At(system, w) && system.workers[w].Completing?
    case Close(w, _) => At(system, w) && system.workers[w].Trying?
    case CloseMark(w, _) => At(system, w) && system.workers[w].Closing?
    case CloseFail(w, _) => At(system, w) && system.workers[w].Closed?
  }

  // replayCompleted: an identical, unexpired, completed operation.
  predicate Replayable(record: Record, digest: Digest, now: Time)
  {
    record.state.StateCompleted? && record.digest == digest && (record.expiresAt == 0 || now < record.expiresAt)
  }

  /** The reference BlobResultStore.Get follows: what the process remembers goes first, then the ledger's.
      Before the ledger has one, a remembered one counts only while the operation is dispatching. */
  function Followed(record: Record, caches: map<ProcessId, Response>, process: ProcessId): ResultRef
  {
    if record.resultRef.Ref? then
      if process in caches then Ref(caches[process]) else record.resultRef
    else if process in caches && record.state.StateDispatching? then Ref(caches[process])
    else NoRef
  }

  // BlobResultStore.Get: the blob that reference names, if it is stored.
  function Fetched(system: System, process: ProcessId): Result
    requires system.store.Kept?
  {
    match Followed(system.store.record, system.caches, process)
    case Ref(response) => if response in system.blobs then Saved(response) else NoResult
    case NoRef => NoResult
  }

  // BlobResultStore.remember: a full cache takes no new operation, but replaces what it has.
  function Remembered(caches: map<ProcessId, Response>, process: ProcessId, response: Response, full: bool):
    map<ProcessId, Response>
  {
    if full && process !in caches then caches else caches[process := response]
  }

  function StoredOutcome(result: Result): Outcome
  {
    match result
    case Saved(response) => Returned(response)
    case NoResult => Failed
  }

  // resolveExisting's first decision on the snapshot Begin returned.
  function Existing(record: Record, now: Time): Stage
  {
    match record.state
    case StateCompleted => Resolving(record.state, record.token)
    case StateDispatching => Resolving(record.state, record.token)
    case StateProviderPending => Polling(record.token, FromPending)
    case StateReserved =>
      if record.leaseUntil != 0 && now < record.leaseUntil then Ended(Failed) else Trying(record.token)
    case _ => Ended(Failed)
  }

  // dispatchPlan and resumeDispatching after the mark: what a verdict leads to.
  function AfterVerdict(token: Token, verdict: Verdict, origin: Origin, more: bool): Stage
  {
    if !Retryable(verdict) then Settling(token, verdict.dispatch, false)
    else if origin.FromPlan? && more then Falling(token)
    else Settling(token, verdict.dispatch, true)
  }

  // A validated resumable result, or the outcome of a one-shot Invoke.
  function AfterReport(token: Token, report: Report, origin: Origin, more: bool): Stage
  {
    match report
    case Success(response) => Storing(token, response)
    case Pending => Persisting(token, origin)
    case NotFound => Settling(token, Ambiguous, false)
    case Invalid => Settling(token, Ambiguous, false)
    case Failure(fault) => AfterVerdict(token, Classify(fault, true), origin, more)
  }

  // A failed poll is classified again unless the operation was resumed as provider_pending.
  function AfterPoll(token: Token, report: Report, lookupFailed: bool, origin: Origin, more: bool): Stage
  {
    match report
    case Success(response) => Storing(token, response)
    case Pending => Ended(Failed)
    case NotFound => Settling(token, Ambiguous, false)
    case Invalid => Settling(token, Ambiguous, false)
    case Failure(fault) =>
      var verdict := PollVerdict(fault, lookupFailed);
      if StaysPending(verdict) then Ended(Failed)
      else if origin.FromPending? then Settling(token, verdict.dispatch, Retryable(verdict))
      else AfterVerdict(token, ReclassifiedPoll(fault, lookupFailed), origin, more)
  }

  function Committed(system: System, answer: Answer): System
  {
    if answer.Done? then system.(store := Kept(answer.record)) else system
  }

  function Apply(system: System, event: Event): System
    requires Enabled(system, event)
  {
    match event
    case Tick(elapsed) => system.(now := system.now + elapsed)
    case Spawn(w, digest) => Goto(system, w, Planning(digest))
    case Crash(w) => system.(workers := system.workers - {w})
    case Forget(process) => system.(caches := system.caches - {process})
    case Replay(w, readable) =>
      var result := if readable then Fetched(system, w.process) else NoResult;
      Goto(system, w, Ended(StoredOutcome(result)))
    case Begin(w, granted, leaseUntil, expiresAt) => Beginning(system, w, granted, leaseUntil, expiresAt)
    case Resolve(w, readable) => Resolved(system, w, readable)
    case Repair(w, accepted, full) =>
      StoreResult(system, w, accepted, full, Ended(Failed))
    case CompileFault(w, verdict) =>
      if verdict.dispatch.NotDispatched? then system
      else Goto(system, w, Settling(system.workers[w].token, verdict.dispatch, Retryable(verdict)))
    case Mark(w, lost, leaseUntil) =>
      var token := system.workers[w].token;
      var answer := MarkDispatching(system.store.record, token, leaseUntil);
      Goto(Committed(system, answer), w, if answer.Done? && !lost then Armed(token) else Trying(token))
    case Write(w) =>
      var token := system.workers[w].token;
      Goto(system, w, Waiting(token, |system.sends|)).(sends := system.sends + [Send(token, InFlight)])
    case Take(i) => Decided(system, i, Taken)
    case Answer(i, response) => Decided(system, i, Answered(response))
    case Refuse(i) => Decided(system, i, Refusal)
    case Report(w, report, recover, more) =>
      var token := system.workers[w].token;
      if recover && report.Failure? && !Classify(report.fault, true).dispatch.Definite() then
        Goto(system, w, Recovering(token, FromPlan, Classify(report.fault, true)))
      else Goto(system, w, AfterReport(token, report, FromPlan, more))
    case Recover(w, report, lookupFailed, more) =>
      var stage := system.workers[w];
      if lookupFailed && report.Failure? then
        var verdict := Classify(RecoveryFailure(stage.verdict, report.fault), true);
        Goto(system, w, AfterVerdict(stage.token, verdict, stage.origin, more))
      else Goto(system, w, AfterReport(stage.token, report, stage.origin, more))
    case Persist(w, sameId, lost) =>
      var stage := system.workers[w];
      var answer := MarkProviderPending(system.store.record, stage.token, sameId);
      Goto(Committed(system, answer), w,
           if answer.Done? && !lost then Polling(stage.token, stage.origin) else Settling(stage.token, Accepted, false))
    case Poll(w, report, lookupFailed, more) =>
      var stage := system.workers[w];
      Goto(system, w, AfterPoll(stage.token, report, lookupFailed, stage.origin, more))
    case Settle(w, _) =>
      var stage := system.workers[w];
      var answer := Fail(system.store.record, stage.token, stage.certainty, stage.retryable);
      Goto(Committed(system, answer), w, Ended(Failed))
    case Fall(w, granted, lost, leaseUntil) =>
      var answer := Continue(system.store.record, system.workers[w].token, granted, leaseUntil);
      Goto(Committed(system, answer), w,
           if answer.Done? && granted && !lost then Trying(answer.record.token) else Ended(Failed))
    case Put(w, accepted, full) =>
      StoreResult(system, w, accepted, full, Settling(system.workers[w].token, Accepted, false))
    case Finish(w, lost) =>
      var stage := system.workers[w];
      var answer := Complete(system.store.record, stage.token, stage.response);
      Goto(Committed(system, answer), w, Ended(if answer.Done? && !lost then Returned(stage.response) else Failed))
    case Close(w, canceled) => Goto(system, w, Closing(system.workers[w].token, canceled))
    case CloseMark(w, lost) =>
      var stage := system.workers[w];
      var answer := MarkDispatching(system.store.record, stage.token, system.now);
      Goto(Committed(system, answer), w,
           if (answer.Done? && !lost) || stage.canceled then Closed(stage.token) else Ended(Failed))
    case CloseFail(w, _) =>
      var answer := Fail(system.store.record, system.workers[w].token, NotDispatched, false);
      Goto(Committed(system, answer), w, Ended(Failed))
  }

  function Decided(system: System, i: nat, fate: Fate): System
    requires i < |system.sends|
  {
    system.(sends := system.sends[i := system.sends[i].(fate := fate)])
  }

  // Results.Put by a worker that has a response, before the ledger is completed with its reference.
  function StoreResult(system: System, w: WorkerId, accepted: bool, full: bool, failed: Stage): System
    requires w in system.workers && (system.workers[w].Storing? || system.workers[w].Repairing?)
  {
    var stage := system.workers[w];
    if accepted then
      var caches := Remembered(system.caches, w.process, stage.response, full);
      Goto(system.(caches := caches, blobs := system.blobs + {stage.response}),
           w, Completing(stage.token, stage.response))
    else Goto(system, w, failed)
  }

  // beginOrResume followed by resolveExisting's look at the returned snapshot.
  function Beginning(system: System, w: WorkerId, granted: bool, leaseUntil: Time, expiresAt: Time): System
    requires w in system.workers && system.workers[w].Planning?
  {
    var digest := system.workers[w].digest;
    match system.store
    case NoRecord =>
      if !granted then Goto(system, w, Ended(Failed))
      else
        var record := Created(digest, leaseUntil, expiresAt);
        Goto(system.(store := Kept(record)), w, Trying(record.token))
    case Kept(record) =>
      if record.digest != digest then Goto(system, w, Ended(Failed))
      else if !Reopens(record) then Goto(system, w, Existing(record, system.now))
      else if !granted then Goto(system, w, Ended(Failed))
      else
        var reopened := Reopened(record, leaseUntil, expiresAt);
        Goto(system.(store := Kept(reopened)), w, Trying(reopened.token))
  }

  // Nothing is known about a submission that a retry finds dispatching.
  const Unknown := Verdict(CodeAmbiguousDispatch, Ambiguous, RetryNever)

  // resolveExisting's look into the result store, which reads the ledger afresh.
  function Resolved(system: System, w: WorkerId, readable: bool): System
    requires At(system, w) && system.workers[w].Resolving?
  {
    var stage := system.workers[w];
    var result := Fetched(system, w.process);
    if !readable then Goto(system, w, Ended(Failed))
    else if stage.found.StateCompleted? then Goto(system, w, Ended(StoredOutcome(result)))
    else if result.Saved? then Goto(system, w, Repairing(stage.token, result.response))
    else Goto(system, w, Recovering(stage.token, FromDispatching, Unknown))
  }

  ghost predicate Runs(system: System, events: seq<Event>)
    decreases |events|
  {
    events == [] || (Enabled(system, events[0]) && Runs(Apply(system, events[0]), events[1..]))
  }

  ghost function After(system: System, events: seq<Event>): System
    requires Runs(system, events)
    decreases |events|
  {
    if events == [] then system else After(Apply(system, events[0]), events[1..])
  }
}
