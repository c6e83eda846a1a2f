/** Every reference to a response leads to a stored blob, over every run and for every adapter
    (golang/engine/finalize.go, golang/internal/runtime/result_store.go). */
module DispatchStorage {
  import opened ProviderErrors
  import opened AdmissionRecord
  import opened DispatchMachine

  // The response a worker stored or read from the store, on its way into the ledger.
  predicate StageBacked(blobs: set<Response>, stage: Stage)
  {
    stage.Completing? || stage.Repairing? ==> stage.response in blobs
  }

  // A record names a response exactly when it is completed, and then a stored one.
  predicate RecordBacked(blobs: set<Response>, record: Record)
  {
    && (record.state.StateCompleted? <==> record.resultRef.Ref?)
    && (record.resultRef.Ref? ==> record.resultRef.response in blobs)
  }

  predicate CachesBacked(blobs: set<Response>, caches: map<ProcessId, Response>)
  {
    forall process <- caches :: caches[process] in blobs
  }

  predicate Backed(system: System)
  {
    && (system.store.Kept? ==> RecordBacked(system.blobs, system.store.record))
    && CachesBacked(system.blobs, system.caches)
    && (forall w <- system.workers :: StageBacked(system.blobs, system.workers[w]))
  }

  // One worker moves and perhaps commits; nothing is stored.
  lemma MoveKeepsBacked(system: System, answer: Answer, w: WorkerId, stage: Stage)
    requires Backed(system) && StageBacked(system.blobs, stage)
    requires answer.Done? ==> RecordBacked(system.blobs, answer.record)
    ensures Backed(Goto(Committed(system, answer), w, stage))
  {
  }

  lemma StoreKeepsBacked(system: System, w: WorkerId, accepted: bool, full: bool, failed: Stage)
    requires Backed(system) && w in system.workers && (system.workers[w].Storing? || system.workers[w].Repairing?)
    requires failed.Settling? || failed.Ended?
    ensures Backed(StoreResult(system, w, accepted, full, failed))
  {
    var next := StoreResult(system, w, accepted, full, failed);
    forall v | v in next.workers
      ensures StageBacked(next.blobs, next.workers[v])
    {
      assert v != w ==> StageBacked(system.blobs, system.workers[v]);
    }
  }

  // Steps that commit a record: its state and its reference change together.
  lemma CommitKeepsBacked(system: System, event: Event)
    requires Backed(system) && Enabled(system, event)
    requires
      || event.Mark? || event.Persist? || event.Settle? || event.Fall? || event.Finish?
      || event.CloseMark? || event.CloseFail?
    ensures Backed(Apply(system, event))
  {
    var w := event.worker;
    var stage := system.workers[w];
    assert StageBacked(system.blobs, stage);
    var record := system.store.record;
    var answer :=
      match event
      case Mark(_, _, leaseUntil) => MarkDispatching(record, stage.token, leaseUntil)
      case Persist(_, sameId, _) => MarkProviderPending(record, stage.token, sameId)
      case Settle(_, _) => Fail(record, stage.token, stage.certainty, stage.retryable)
      case Fall(_, granted, _, leaseUntil) => Continue(record, stage.token, granted, leaseUntil)
      case Finish(_, _) => Complete(record, stage.token, stage.response)
      case CloseMark(_, _) => MarkDispatching(record, stage.token, system.now)
      case CloseFail(_, _) => Fail(record, stage.token, NotDispatched, false);
    MoveKeepsBacked(system, answer, w, Apply(system, event).workers[w]);
  }

  lemma BeginKeepsBacked(system: System, w: WorkerId, granted: bool, leaseUntil: Time, expiresAt: Time)
    requires Backed(system) && w in system.workers && system.workers[w].Planning?
    ensures Backed(Beginning(system, w, granted, leaseUntil, expiresAt))
  {
  }

  lemma OtherStepKeepsBacked(system: System, event: Event)
    requires Backed(system) && Enabled(system, event)
    requires
      || event.Report? || event.Recover? || event.Poll? || event.Resolve? || event.Replay?
      || event.CompileFault? || event.Close? || event.Write?
    ensures Backed(Apply(system, event))
  {
    var w := event.worker;
    var next := Apply(system, event);
    assert StageBacked(next.blobs, next.workers[w]);
    assert next.workers == system.workers[w := next.workers[w]];
  }

  // Time, arrivals and departures, and what the provider does.
  lemma AroundKeepsBacked(system: System, event: Event)
    requires Backed(system) && Enabled(system, event)
    requires
      || event.Tick? || event.Spawn? || event.Crash? || event.Forget?
      || event.Take? || event.Answer? || event.Refuse?
    ensures Backed(Apply(system, event))
  {
  }

  lemma StepKeepsBacked(system: System, event: Event)
    requires Backed(system) && Enabled(system, event)
    ensures Backed(Apply(system, event))
  {
    hide Backed, StageBacked, Beginning, StoreResult, Resolved, AfterReport, AfterVerdict, AfterPoll, Fetched;
    if event.Mark? || event.Persist? || event.Settle? || event.Fall? || event.Finish?
       || event.CloseMark? || event.CloseFail? {
      CommitKeepsBacked(system, event);
    } else if event.Report? || event.Recover? || event.Poll? || event.Resolve? || event.Replay?
              || event.CompileFault? || event.Close? || event.Write? {
      OtherStepKeepsBacked(system, event);
    } else if event.Put? {
      var failed := Settling(system.workers[event.worker].token, Accepted, false);
      StoreKeepsBacked(system, event.worker, event.accepted, event.full, failed);
    } else if event.Repair? {
      StoreKeepsBacked(system, event.worker, event.accepted, event.full, Ended(Failed));
    } else if event.Begin? {
      BeginKeepsBacked(system, event.worker, event.granted, event.leaseUntil, event.expiresAt);
    } else {
      AroundKeepsBacked(system, event);
    }
  }

  lemma {:induction false} RunKeepsBacked(system: System, events: seq<Event>)
    requires Backed(system) && Runs(system, events)
    ensures Backed(After(system, events))
    decreases |events|
  {
    if events != [] {
      StepKeepsBacked(system, events[0]);
      RunKeepsBacked(Apply(system, events[0]), events[1..]);
    }
  }

  /** In every reachable state, whatever adapters report and however the run went, a completed operation
      refers to a stored response, no other state refers to one, a worker completes an operation only
      with a stored response, and every remembered reference names a stored response. */
  lemma CompletedIsStored(events: seq<Event>)
    requires Runs(Initial, events)
    ensures var final := After(Initial, events);
            && (final.store.Kept? ==>
                  && (final.store.record.state.StateCompleted? <==> final.store.record.resultRef.Ref?)
                  && (final.store.record.resultRef.Ref? ==> final.store.record.resultRef.response in final.blobs))
            && (forall w <- final.workers :: final.workers[w].Completing? ==> final.workers[w].response in final.blobs)
            && (forall process <- final.caches :: final.caches[process] in final.blobs)
  {
    RunKeepsBacked(Initial, events);
    var final := After(Initial, events);
    forall w | w in final.workers && final.workers[w].Completing?
      ensures final.workers[w].response in final.blobs
    {
      assert StageBacked(final.blobs, final.workers[w]);
    }
  }
}
