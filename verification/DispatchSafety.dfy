/** At-most-once submission, and what the ledger and result store guarantee, over every run of the
    dispatch machine. */
module DispatchSafety {
  import opened ProviderErrors
  import opened AdmissionRecord
  import opened DispatchMachine
  import opened DispatchStorage

  // ----- assumptions on a step -----

  predicate SomeSend(sends: seq<Send>, token: Token, fate: Fate)
  {
    exists i :: 0 <= i < |sends| && sends[i] == Send(token, fate)
  }

  /** Adapters tell the truth: a response is the one the provider gave, and a fault that denies the
      submission, or a declared failure that disowns it, means that nothing of it is outstanding at
      the provider. The error of a lookup that failed itself claims nothing. Compile does not
      contact a provider, so it cannot report a provider rejection. */
  predicate Truthful(system: System, event: Event)
    requires Enabled(system, event)
  {
    match event
    case Report(w, Success(response), _, _) =>
      var stage := system.workers[w];
      stage.Waiting? && stage.send < |system.sends| && system.sends[stage.send].fate == Answered(response)
    case Report(w, Failure(fault), _, _) =>
      var stage := system.workers[w];
      Denies(fault) ==> stage.Armed? || (stage.send < |system.sends| && system.sends[stage.send].fate.Refusal?)
    case Recover(w, Success(response), _, _) => SomeSend(system.sends, system.workers[w].token, Answered(response))
    case Recover(w, Failure(fault), lookupFailed, _) =>
      !lookupFailed && Denies(fault) ==> SomeSend(system.sends, system.workers[w].token, Refusal)
    case Poll(w, Success(response), _, _) => SomeSend(system.sends, system.workers[w].token, Answered(response))
    case Poll(w, Failure(fault), lookupFailed, _) =>
      !lookupFailed && Disowns(fault) ==> SomeSend(system.sends, system.workers[w].token, Refusal)
    case CompileFault(_, verdict) => !verdict.dispatch.Rejected?
    case _ => true
  }

  /** The error of a failed poll, as opposed to a failure the provider declared, that the engine takes
      for a definite failure of the operation. With a candidate left the plan loop would fall back
      instead, which the ledger refuses for a provider_pending operation. */
  predicate MisreadPoll(fault: Fault, origin: Origin, more: bool)
  {
    match origin
    case FromPending => ReopeningLookup(fault)
    case FromDispatching => ReclassifiedLookup(fault)
    case FromPlan => ReclassifiedLookup(fault) && !more
  }

  // A failed lookup whose own error the engine takes for a verdict on the submission.
  predicate Misread(system: System, event: Event)
  {
    && Enabled(system, event)
    && match event
       case Recover(_, Failure(fault), lookupFailed, _) => lookupFailed && Carries(fault, EgressDenied)
       case Poll(w, Failure(fault), lookupFailed, more) =>
         lookupFailed && MisreadPoll(fault, system.workers[w].origin, more)
       case _ => false
  }

  // The possible-write mark is acknowledged although the operation is already terminal.
  predicate StaleMark(system: System, event: Event)
  {
    && event.Mark?
    && Enabled(system, event)
    && system.store.record.state.Terminal()
    && system.store.record.token == system.workers[event.worker].token
  }

  predicate Sound(system: System, event: Event)
  {
    Enabled(system, event) && Truthful(system, event) && !StaleMark(system, event) && !Misread(system, event)
  }

  ghost predicate SoundRun(system: System, events: seq<Event>)
    decreases |events|
  {
    events == [] || (Sound(system, events[0]) && SoundRun(Apply(system, events[0]), events[1..]))
  }

  // ----- the invariant -----

  // Stages reached only after the operation left `reserved` under the worker's token.
  predicate PastMark(stage: Stage)
  {
    Holds(stage) && !stage.Trying? && !stage.Closing? && !stage.Closed? && (stage.Settling? ==> stage.retryable)
  }

  predicate NoLive(sends: seq<Send>)
  {
    forall i :: 0 <= i < |sends| ==> !sends[i].Live()
  }

  predicate AnsweredWith(sends: seq<Send>, response: Response)
  {
    exists i :: 0 <= i < |sends| && sends[i].fate == Answered(response)
  }

  // The worker's next store step lets the operation be submitted again.
  predicate Frees(record: Record, stage: Stage)
  {
    (stage.Settling? && stage.retryable) || (stage.Falling? && record.state.StateDispatching?)
  }

  // The response in the worker's hands, or returned to its caller.
  function Carried(stage: Stage): Result
  {
    match stage
    case Storing(_, response) => Saved(response)
    case Completing(_, response) => Saved(response)
    case Repairing(_, response) => Saved(response)
    case Ended(Returned(response)) => Saved(response)
    case _ => NoResult
  }

  predicate StageOk(record: Record, sends: seq<Send>, stage: Stage)
  {
    && (Holds(stage) ==> stage.token.AtMost(record.token))
    && (PastMark(stage) && stage.token == record.token ==> !record.state.StateReserved?)
    && (stage.Polling? && stage.token == record.token ==> !record.state.StateDispatching?)
    && (stage.Armed? ==>
          && stage.token == record.token && !Reopens(record)
          && forall i :: 0 <= i < |sends| ==> sends[i].token != stage.token)
    && (stage.Waiting? ==> stage.send < |sends| && sends[stage.send].token == stage.token)
    && (Frees(record, stage) && stage.token == record.token ==> NoLive(sends))
    && (stage.Recovering? ==> !stage.verdict.dispatch.Definite())
    && (Carried(stage).Saved? ==> AnsweredWith(sends, Carried(stage).response))
  }

  predicate SendsOk(record: Record, sends: seq<Send>)
  {
    && (forall i :: 0 <= i < |sends| ==> SendOk(record, sends[i]))
    && (forall i, j :: 0 <= i < j < |sends| ==> sends[i].token != sends[j].token)
  }

  predicate SendOk(record: Record, send: Send)
  {
    && send.token.AtMost(record.token)
    && (send.token == record.token ==> !record.state.StateReserved?)
    && (send.Live() ==> send.token == record.token && !Reopens(record))
  }

  predicate RecordOk(record: Record, sends: seq<Send>)
  {
    && (record.state.StateCompleted? <==> record.resultRef.Ref?)
    && (record.resultRef.Ref? ==> AnsweredWith(sends, record.resultRef.response))
    && (record.retryable ==> record.state.StateDefiniteFailed?)
  }

  // An armed worker is alone: nobody else is armed or about to move the same token on.
  predicate ArmedAlone(record: Record, workers: map<WorkerId, Stage>)
  {
    forall v, w :: v in workers && w in workers && v != w && workers[v].Armed? ==>
                     !workers[w].Armed? && !(Frees(record, workers[w]) && workers[w].token == workers[v].token)
  }

  predicate WorkersOk(record: Record, sends: seq<Send>, workers: map<WorkerId, Stage>)
  {
    forall w :: w in workers ==> StageOk(record, sends, workers[w])
  }

  // Everything a process remembers is an answer of the provider.
  predicate CachesOk(sends: seq<Send>, caches: map<ProcessId, Response>)
  {
    forall p :: p in caches ==> AnsweredWith(sends, caches[p])
  }

  ghost predicate Inv(system: System)
  {
    && CachesOk(system.sends, system.caches)
    && match system.store
       case NoRecord =>
         && system.sends == []
         && forall w :: w in system.workers ==> !Holds(system.workers[w]) && Carried(system.workers[w]).NoResult?
       case Kept(record) =>
         && RecordOk(record, system.sends)
         && SendsOk(record, system.sends)
         && WorkersOk(record, system.sends, system.workers)
         && ArmedAlone(record, system.workers)
  }

  // ----- preservation -----

  // One worker moves; store, sends and caches stay.
  lemma GotoKeeps(system: System, w: WorkerId, stage: Stage)
    requires Inv(system) && system.store.Kept?
    requires StageOk(system.store.record, system.sends, stage)
    requires stage.Armed? ==>
               forall v :: v in system.workers && v != w ==>
                 && !system.workers[v].Armed?
                 && !(Frees(system.store.record, system.workers[v]) && system.workers[v].token == stage.token)
    requires Frees(system.store.record, stage) ==>
               forall v :: v in system.workers && v != w && system.workers[v].Armed? ==>
                 system.workers[v].token != stage.token
    ensures Inv(Goto(system, w, stage))
  {
  }

  // The record changes within its token, forwards, and never into a reopenable failure.
  predicate Forwards(from: Record, to: Record)
  {
    && to.token == from.token
    && (to.state.StateReserved? ==> from.state.StateReserved?)
    && (to.state.StateDispatching? ==> from.state.StateReserved? || from.state.StateDispatching?)
    && (!Reopens(to) || to == from)
  }

  lemma CommitKeeps(system: System, record: Record)
    requires Inv(system) && system.store.Kept? && Forwards(system.store.record, record)
    requires RecordOk(record, system.sends)
    ensures Inv(system.(store := Kept(record)))
  {
    forall w | w in system.workers
      ensures StageOk(record, system.sends, system.workers[w])
      ensures Frees(record, system.workers[w]) && system.workers[w].token == record.token ==>
                Frees(system.store.record, system.workers[w])
    {
      assert StageOk(system.store.record, system.sends, system.workers[w]);
    }
    forall v, w | v in system.workers && w in system.workers && v != w && system.workers[v].Armed?
      ensures !system.workers[w].Armed?
      ensures !(Frees(record, system.workers[w]) && system.workers[w].token == system.workers[v].token)
    {
      assert StageOk(system.store.record, system.sends, system.workers[v]);
    }
    forall i | 0 <= i < |system.sends|
      ensures SendOk(record, system.sends[i])
    {
      assert SendOk(system.store.record, system.sends[i]);
    }
  }

  // The record becomes reopenable, or is reserved again under a fresh token: nothing may be live.
  lemma ReleaseKeeps(system: System, record: Record)
    requires Inv(system) && system.store.Kept?
    requires NoLive(system.sends)
    requires forall w :: w in system.workers ==> !system.workers[w].Armed?
    requires RecordOk(record, system.sends)
    requires
      || (record.token == system.store.record.token && Reopens(record))
      || (system.store.record.token.AtMost(record.token) && record.token != system.store.record.token)
    ensures Inv(system.(store := Kept(record)))
  {
    forall w | w in system.workers
      ensures StageOk(record, system.sends, system.workers[w])
    {
      assert StageOk(system.store.record, system.sends, system.workers[w]);
    }
    forall i | 0 <= i < |system.sends|
      ensures SendOk(record, system.sends[i])
    {
      assert SendOk(system.store.record, system.sends[i]);
    }
  }

  // Sends only grow, and an answer stays what it is.
  predicate Extends(before: seq<Send>, after: seq<Send>)
  {
    && |before| <= |after|
    && forall i :: 0 <= i < |before| ==>
                     && after[i].token == before[i].token
                     && (before[i].fate.Answered? || before[i].fate.Refusal? ==> after[i] == before[i])
  }

  lemma AnswersStay(before: seq<Send>, after: seq<Send>, response: Response)
    requires Extends(before, after) && AnsweredWith(before, response)
    ensures AnsweredWith(after, response)
  {
    var i :| 0 <= i < |before| && before[i].fate == Answered(response);
    assert after[i] == before[i];
  }

  // The provider acts, or a worker writes: what was known about answers is still known.
  lemma ExtendedStageOk(record: Record, before: seq<Send>, after: seq<Send>, stage: Stage)
    requires StageOk(record, before, stage) && Extends(before, after)
    requires NoLive(before) ==> NoLive(after) || !(Frees(record, stage) && stage.token == record.token)
    requires stage.Armed? ==> forall i :: |before| <= i < |after| ==> after[i].token != stage.token
    ensures StageOk(record, after, stage)
  {
    if Carried(stage).Saved? {
      AnswersStay(before, after, Carried(stage).response);
    }
  }

  lemma ExtendedStoresOk(record: Record, before: seq<Send>, after: seq<Send>, caches: map<ProcessId, Response>)
    requires Extends(before, after) && RecordOk(record, before) && CachesOk(before, caches)
    ensures RecordOk(record, after) && CachesOk(after, caches)
  {
    if record.resultRef.Ref? {
      AnswersStay(before, after, record.resultRef.response);
    }
    forall p | p in caches
      ensures AnsweredWith(after, caches[p])
    {
      AnswersStay(before, after, caches[p]);
    }
  }

  lemma FateKeeps(system: System, i: nat, fate: Fate)
    requires Inv(system) && i < |system.sends| && system.sends[i].fate.Open() && !fate.InFlight?
    ensures Inv(Decided(system, i, fate))
  {
    var sends := Decided(system, i, fate).sends;
    var record := system.store.record;
    assert system.sends[i].Live();
    ExtendedStoresOk(record, system.sends, sends, system.caches);
    forall w | w in system.workers
      ensures StageOk(record, sends, system.workers[w])
    {
      assert StageOk(record, system.sends, system.workers[w]);
      ExtendedStageOk(record, system.sends, sends, system.workers[w]);
    }
    forall j | 0 <= j < |sends|
      ensures SendOk(record, sends[j])
    {
      assert SendOk(record, system.sends[j]);
    }
    forall j, k | 0 <= j < k < |sends|
      ensures sends[j].token != sends[k].token
    {
      assert system.sends[j].token != system.sends[k].token;
    }
  }

  lemma WriteKeeps(system: System, w: WorkerId)
    requires Inv(system) && Enabled(system, Write(w))
    ensures Inv(Apply(system, Write(w)))
  {
    var token := system.workers[w].token;
    var sends := system.sends + [Send(token, InFlight)];
    var record := system.store.record;
    var next := Apply(system, Write(w));
    assert StageOk(record, system.sends, system.workers[w]);
    assert SendOk(record, Send(token, InFlight));
    ExtendedStoresOk(record, system.sends, sends, system.caches);
    forall v | v in next.workers
      ensures StageOk(record, sends, next.workers[v])
    {
      if v != w {
        assert StageOk(record, system.sends, system.workers[v]);
        ExtendedStageOk(record, system.sends, sends, system.workers[v]);
      }
    }
    forall i | 0 <= i < |sends|
      ensures SendOk(record, sends[i])
    {
      if i < |system.sends| {
        assert SendOk(record, system.sends[i]);
      }
    }
    forall i, j | 0 <= i < j < |sends|
      ensures sends[i].token != sends[j].token
    {
      if j == |system.sends| {
        assert system.sends[i].token != token;
      } else {
        assert system.sends[i].token != system.sends[j].token;
      }
    }
  }

  // A definite verdict about an unwritten or refused submission rules out live ones.
  lemma EvidenceRulesOutLive(system: System, token: Token, i: nat)
    requires Inv(system) && system.store.Kept? && token == system.store.record.token
    requires i < |system.sends| && system.sends[i] == Send(token, Refusal)
    ensures NoLive(system.sends)
    ensures forall v :: v in system.workers ==> !system.workers[v].Armed?
  {
    var record := system.store.record;
    forall j | 0 <= j < |system.sends|
      ensures !system.sends[j].Live()
    {
      assert SendOk(record, system.sends[j]);
      if j < i {
        assert system.sends[j].token != system.sends[i].token;
      } else if i < j {
        assert system.sends[i].token != system.sends[j].token;
      }
    }
    forall v | v in system.workers
      ensures !system.workers[v].Armed?
    {
      assert StageOk(record, system.sends, system.workers[v]);
      assert system.sends[i].token == token;
    }
  }

  lemma RefusedSendFrees(system: System, w: WorkerId, stage: Stage)
    requires Inv(system) && At(system, w) && Holds(system.workers[w]) && PastMark(system.workers[w])
    requires (stage.Settling? || stage.Falling?) && stage.token == system.workers[w].token
    requires SomeSend(system.sends, stage.token, Refusal)
    ensures Inv(Goto(system, w, stage))
  {
    var record := system.store.record;
    assert StageOk(record, system.sends, system.workers[w]);
    var i :| 0 <= i < |system.sends| && system.sends[i] == Send(stage.token, Refusal);
    if stage.token == record.token {
      EvidenceRulesOutLive(system, stage.token, i);
    }
    forall v | v in system.workers && v != w && system.workers[v].Armed?
      ensures system.workers[v].token != stage.token
    {
      assert StageOk(record, system.sends, system.workers[v]);
      assert system.sends[i].token == stage.token;
    }
    GotoKeeps(system, w, stage);
  }

  // A worker that has been told nothing of consequence moves on.
  lemma QuietGotoKeeps(system: System, w: WorkerId, stage: Stage)
    requires Inv(system) && At(system, w) && Holds(system.workers[w]) && PastMark(system.workers[w])
    requires
      || stage == Ended(Failed)
      || (&& (stage.Persisting? || (stage.Settling? && !stage.retryable) || stage.Recovering? ||
              (stage.Falling? && system.workers[w].Polling?))
          && stage.token == system.workers[w].token)
    requires stage.Recovering? ==> !stage.verdict.dispatch.Definite()
    ensures Inv(Goto(system, w, stage))
  {
    assert StageOk(system.store.record, system.sends, system.workers[w]);
    forall v | v in system.workers && system.workers[v].Armed?
      ensures system.workers[v].token == system.store.record.token
    {
      assert StageOk(system.store.record, system.sends, system.workers[v]);
    }
    GotoKeeps(system, w, stage);
  }

  // A worker gets a response that the provider gave.
  lemma AnswerGotoKeeps(system: System, w: WorkerId, token: Token, response: Response)
    requires Inv(system) && At(system, w) && Holds(system.workers[w]) && PastMark(system.workers[w])
    requires token == system.workers[w].token && AnsweredWith(system.sends, response)
    ensures Inv(Goto(system, w, Storing(token, response)))
  {
    assert StageOk(system.store.record, system.sends, system.workers[w]);
    GotoKeeps(system, w, Storing(token, response));
  }

  lemma ReportKeeps(system: System, event: Event)
    requires Inv(system) && event.Report? && Sound(system, event)
    ensures Inv(Apply(system, event))
  {
    var w := event.worker;
    var record := system.store.record;
    var stage := system.workers[w];
    var next := Apply(system, event).workers[w];
    assert StageOk(record, system.sends, stage);
    match event.report {
      case Success(response) => AnswerGotoKeeps(system, w, stage.token, response);
      case Failure(fault) =>
        MarkedFaultIsDefiniteIff(fault);
        if !Denies(fault) {
          QuietGotoKeeps(system, w, next);
        } else if stage.Armed? {
          forall i | 0 <= i < |system.sends|
            ensures !system.sends[i].Live()
          {
            assert SendOk(record, system.sends[i]);
          }
          GotoKeeps(system, w, next);
        } else {
          assert system.sends[stage.send] == Send(stage.token, Refusal);
          RefusedSendFrees(system, w, next);
        }
      case _ => QuietGotoKeeps(system, w, next);
    }
  }

  lemma RecoverKeeps(system: System, event: Event)
    requires Inv(system) && event.Recover? && Sound(system, event)
    ensures Inv(Apply(system, event))
  {
    var w := event.worker;
    var stage := system.workers[w];
    var next := Apply(system, event).workers[w];
    assert StageOk(system.store.record, system.sends, stage);
    match event.report {
      case Success(response) => AnswerGotoKeeps(system, w, stage.token, response);
      case Failure(fault) =>
        MarkedFaultIsDefiniteIff(fault);
        RecoveryFailureStaysUndecidedIff(stage.verdict, fault);
        if !event.lookupFailed && Denies(fault) {
          RefusedSendFrees(system, w, next);
        } else {
          QuietGotoKeeps(system, w, next);
        }
      case _ => QuietGotoKeeps(system, w, next);
    }
  }

  lemma PollKeeps(system: System, event: Event)
    requires Inv(system) && event.Poll? && Sound(system, event)
    ensures Inv(Apply(system, event))
  {
    var w := event.worker;
    var stage := system.workers[w];
    var next := Apply(system, event).workers[w];
    match event.report {
      case Success(response) => AnswerGotoKeeps(system, w, stage.token, response);
      case Failure(fault) => FailedPollKeeps(system, event, fault);
      case _ => QuietGotoKeeps(system, w, next);
    }
  }

  lemma FailedPollKeeps(system: System, event: Event, fault: Fault)
    requires Inv(system) && event.Poll? && event.report == Failure(fault) && Sound(system, event)
    ensures Inv(Apply(system, event))
  {
    var w := event.worker;
    var next := Apply(system, event).workers[w];
    if next.Settling? && next.retryable {
      if event.lookupFailed {
        PollFailureReopensIff(fault);
      } else {
        DeclaredFailureDisowns(fault);
      }
      RefusedSendFrees(system, w, next);
    } else {
      QuietGotoKeeps(system, w, next);
    }
  }

  lemma ReopenKeeps(system: System, w: WorkerId, leaseUntil: Time, expiresAt: Time)
    requires Inv(system) && system.store.Kept? && Reopens(system.store.record)
    ensures var reopened := Reopened(system.store.record, leaseUntil, expiresAt);
            Inv(Goto(system.(store := Kept(reopened)), w, Trying(reopened.token)))
  {
    var record := system.store.record;
    var reopened := Reopened(record, leaseUntil, expiresAt);
    forall i | 0 <= i < |system.sends|
      ensures !system.sends[i].Live()
    {
      assert SendOk(record, system.sends[i]);
    }
    forall v | v in system.workers
      ensures !system.workers[v].Armed?
    {
      assert StageOk(record, system.sends, system.workers[v]);
    }
    ReleaseKeeps(system, reopened);
    GotoKeeps(system.(store := Kept(reopened)), w, Trying(reopened.token));
  }

  lemma BeginKeeps(system: System, event: Event)
    requires Inv(system) && event.Begin? && Enabled(system, event)
    ensures Inv(Apply(system, event))
  {
    var w := event.worker;
    if system.store.NoRecord? {
      assert Apply(system, event).store.Kept? ==>
               ArmedAlone(Apply(system, event).store.record, Apply(system, event).workers);
    } else {
      var record := system.store.record;
      if record.digest == system.workers[w].digest && Reopens(record) && event.granted {
        ReopenKeeps(system, w, event.leaseUntil, event.expiresAt);
      } else {
        GotoKeeps(system, w, Apply(system, event).workers[w]);
      }
    }
  }

  lemma MarkKeeps(system: System, event: Event)
    requires Inv(system) && event.Mark? && Sound(system, event)
    ensures Inv(Apply(system, event))
  {
    var w := event.worker;
    var record := system.store.record;
    var token := system.workers[w].token;
    assert StageOk(record, system.sends, system.workers[w]);
    var answer := MarkDispatching(record, token, event.leaseUntil);
    if answer.Done? {
      CommitKeeps(system, answer.record);
      var marked := system.(store := Kept(answer.record));
      forall i | 0 <= i < |system.sends|
        ensures system.sends[i].token != token
      {
        assert SendOk(record, system.sends[i]);
      }
      forall v | v in system.workers
        ensures !(PastMark(system.workers[v]) && system.workers[v].token == token)
        ensures !system.workers[v].Armed?
      {
        assert StageOk(record, system.sends, system.workers[v]);
      }
      GotoKeeps(marked, w, Apply(system, event).workers[w]);
    } else {
      GotoKeeps(system, w, Trying(token));
    }
  }

  lemma SettleKeeps(system: System, event: Event)
    requires Inv(system) && event.Settle? && Enabled(system, event)
    ensures Inv(Apply(system, event))
  {
    var w := event.worker;
    var record := system.store.record;
    var stage := system.workers[w];
    assert StageOk(record, system.sends, stage);
    var answer := Fail(record, stage.token, stage.certainty, stage.retryable);
    if answer.Done? {
      if Reopens(answer.record) && answer.record != record {
        forall v | v in system.workers
          ensures !system.workers[v].Armed?
        {
          assert StageOk(record, system.sends, system.workers[v]);
        }
        ReleaseKeeps(system, answer.record);
      } else {
        CommitKeeps(system, answer.record);
      }
      GotoKeeps(system.(store := Kept(answer.record)), w, Ended(Failed));
    } else {
      GotoKeeps(system, w, Ended(Failed));
    }
  }

  lemma FallKeeps(system: System, event: Event)
    requires Inv(system) && event.Fall? && Enabled(system, event)
    ensures Inv(Apply(system, event))
  {
    var w := event.worker;
    var record := system.store.record;
    var stage := system.workers[w];
    assert StageOk(record, system.sends, stage);
    var answer := Continue(record, stage.token, event.granted, event.leaseUntil);
    if answer.Done? {
      if event.granted {
        forall v | v in system.workers
          ensures !system.workers[v].Armed?
        {
          assert StageOk(record, system.sends, system.workers[v]);
        }
        ReleaseKeeps(system, answer.record);
      } else {
        CommitKeeps(system, answer.record);
      }
      GotoKeeps(system.(store := Kept(answer.record)), w, Apply(system, event).workers[w]);
    } else {
      GotoKeeps(system, w, Ended(Failed));
    }
  }

  lemma CacheKeeps(system: System, caches: map<ProcessId, Response>, blobs: set<Response>)
    requires Inv(system) && CachesOk(system.sends, caches)
    ensures Inv(system.(caches := caches, blobs := blobs))
  {
  }

  lemma StoreResultKeeps(system: System, event: Event)
    requires Inv(system) && (event.Put? || event.Repair?) && Enabled(system, event)
    ensures Inv(Apply(system, event))
  {
    var w := event.worker;
    var stage := system.workers[w];
    assert StageOk(system.store.record, system.sends, stage);
    if event.accepted {
      var caches := Remembered(system.caches, w.process, stage.response, event.full);
      var blobs := system.blobs + {stage.response};
      CacheKeeps(system, caches, blobs);
      GotoKeeps(system.(caches := caches, blobs := blobs), w, Completing(stage.token, stage.response));
    } else {
      QuietGotoKeeps(system, w, Apply(system, event).workers[w]);
    }
  }

  // A worker commits an answer that is not a reopening, and moves on.
  lemma CommitGotoKeeps(system: System, w: WorkerId, answer: Answer, stage: Stage)
    requires Inv(system) && At(system, w) && Holds(system.workers[w])
    requires answer.Done? ==> Forwards(system.store.record, answer.record) && RecordOk(answer.record, system.sends)
    requires stage.Ended? || stage.Polling? || (stage.Settling? && !stage.retryable) || stage.Closed?
    requires Holds(stage) ==> stage.token == system.workers[w].token
    requires stage.Polling? ==> PastMark(system.workers[w]) && answer.Done? && !answer.record.state.StateDispatching?
    requires Carried(stage).Saved? ==> AnsweredWith(system.sends, Carried(stage).response)
    ensures Inv(Goto(Committed(system, answer), w, stage))
  {
    assert StageOk(system.store.record, system.sends, system.workers[w]);
    if answer.Done? {
      CommitKeeps(system, answer.record);
      assert StageOk(answer.record, system.sends, system.workers[w]);
    }
    GotoKeeps(Committed(system, answer), w, stage);
  }

  lemma CompletionKeeps(system: System, event: Event)
    requires Inv(system) && Enabled(system, event) && event.Finish?
    ensures Inv(Apply(system, event))
  {
    var w := event.worker;
    var stage := system.workers[w];
    assert StageOk(system.store.record, system.sends, stage);
    var answer := Complete(system.store.record, stage.token, stage.response);
    CommitGotoKeeps(system, w, answer, Apply(system, event).workers[w]);
  }

  lemma PersistKeeps(system: System, event: Event)
    requires Inv(system) && Enabled(system, event) && event.Persist?
    ensures Inv(Apply(system, event))
  {
    var w := event.worker;
    var stage := system.workers[w];
    assert StageOk(system.store.record, system.sends, stage);
    var answer := MarkProviderPending(system.store.record, stage.token, event.sameId);
    CommitGotoKeeps(system, w, answer, Apply(system, event).workers[w]);
  }

  // Closing an unused reservation.
  lemma CloseMarkKeeps(system: System, event: Event)
    requires Inv(system) && Enabled(system, event) && event.CloseMark?
    ensures Inv(Apply(system, event))
  {
    var w := event.worker;
    var stage := system.workers[w];
    assert StageOk(system.store.record, system.sends, stage);
    var answer := MarkDispatching(system.store.record, stage.token, system.now);
    CommitGotoKeeps(system, w, answer, Apply(system, event).workers[w]);
  }

  lemma CloseFailKeeps(system: System, event: Event)
    requires Inv(system) && Enabled(system, event) && event.CloseFail?
    ensures Inv(Apply(system, event))
  {
    var w := event.worker;
    var answer := Fail(system.store.record, system.workers[w].token, NotDispatched, false);
    CommitGotoKeeps(system, w, answer, Ended(Failed));
  }

  lemma FetchedIsAnswer(system: System, process: ProcessId)
    requires Inv(system) && system.store.Kept?
    ensures var result := Fetched(system, process);
            result.Saved? ==> AnsweredWith(system.sends, result.response)
  {
  }

  // A worker looks into the result store.
  lemma ResolveKeeps(system: System, w: WorkerId, readable: bool)
    requires Inv(system) && At(system, w) && system.workers[w].Resolving?
    ensures Inv(Resolved(system, w, readable))
  {
    FetchedIsAnswer(system, w.process);
    assert StageOk(system.store.record, system.sends, system.workers[w]);
    GotoKeeps(system, w, Resolved(system, w, readable).workers[w]);
  }

  lemma ReplayKeeps(system: System, w: WorkerId, readable: bool)
    requires Inv(system) && Enabled(system, Replay(w, readable))
    ensures Inv(Apply(system, Replay(w, readable)))
  {
    FetchedIsAnswer(system, w.process);
    GotoKeeps(system, w, Apply(system, Replay(w, readable)).workers[w]);
  }

  lemma LocalStepKeeps(system: System, event: Event)
    requires Inv(system) && Sound(system, event) && (event.CompileFault? || event.Close?)
    ensures Inv(Apply(system, event))
  {
    var w := event.worker;
    assert StageOk(system.store.record, system.sends, system.workers[w]);
    if event.CompileFault? && event.verdict.dispatch.NotDispatched? {
      assert Apply(system, event) == system;
    } else {
      GotoKeeps(system, w, Apply(system, event).workers[w]);
    }
  }

  lemma ArrivalKeeps(system: System, event: Event)
    requires Inv(system) && Enabled(system, event)
    requires event.Tick? || event.Spawn? || event.Crash? || event.Forget?
    ensures Inv(Apply(system, event))
  {
    if event.Spawn? && system.store.Kept? {
      GotoKeeps(system, event.worker, Planning(event.digest));
    }
  }

  predicate Provider(event: Event)
  {
    || event.Write? || event.Take? || event.Answer? || event.Refuse?
    || event.Report? || event.Recover? || event.Poll?
  }

  lemma ProviderStepKeeps(system: System, event: Event)
    requires Inv(system) && Sound(system, event) && Provider(event)
    ensures Inv(Apply(system, event))
  {
    hide Inv, AfterReport, AfterVerdict, AfterPoll;
    match event
    case Write(w) => WriteKeeps(system, w);
    case Take(i) => FateKeeps(system, i, Taken);
    case Answer(i, response) => FateKeeps(system, i, Answered(response));
    case Refuse(i) => FateKeeps(system, i, Refusal);
    case Report(_, _, _, _) => ReportKeeps(system, event);
    case Recover(_, _, _, _) => RecoverKeeps(system, event);
    case Poll(_, _, _, _) => PollKeeps(system, event);
  }

  lemma StepKeeps(system: System, event: Event)
    requires Inv(system) && Sound(system, event)
    ensures Inv(Apply(system, event))
  {
    hide Inv, Beginning, StoreResult, Fetched, AfterReport, AfterVerdict, AfterPoll, Truthful, Misread, StaleMark;
    if Provider(event) {
      ProviderStepKeeps(system, event);
    } else if event.Tick? || event.Spawn? || event.Crash? || event.Forget? {
      ArrivalKeeps(system, event);
    } else if event.CompileFault? || event.Close? {
      LocalStepKeeps(system, event);
    } else if event.Put? || event.Repair? {
      StoreResultKeeps(system, event);
    } else {
      match event
      case Begin(_, _, _, _) => BeginKeeps(system, event);
      case Resolve(w, readable) => ResolveKeeps(system, w, readable);
      case Replay(w, readable) => ReplayKeeps(system, w, readable);
      case Mark(_, _, _) => MarkKeeps(system, event);
      case Persist(_, _, _) => PersistKeeps(system, event);
      case Settle(_, _) => SettleKeeps(system, event);
      case Fall(_, _, _, _) => FallKeeps(system, event);
      case Finish(_, _) => CompletionKeeps(system, event);
      case CloseMark(_, _) => CloseMarkKeeps(system, event);
      case CloseFail(_, _) => CloseFailKeeps(system, event);
    }
  }

  lemma {:induction false} RunKeeps(system: System, events: seq<Event>)
    requires Inv(system) && SoundRun(system, events)
    ensures Runs(system, events) && Inv(After(system, events))
    decreases |events|
  {
    if events != [] {
      StepKeeps(system, events[0]);
      RunKeeps(Apply(system, events[0]), events[1..]);
    }
  }

  // ----- what every run guarantees -----

  // Two submissions are live: accepted, or written and not yet decided.
  predicate TwoLive(sends: seq<Send>)
  {
    exists i, j :: 0 <= i < j < |sends| && sends[i].Live() && sends[j].Live()
  }

  lemma InvMeansOnce(system: System)
    requires Inv(system)
    ensures !TwoLive(system.sends)
  {
    forall i, j | 0 <= i < j < |system.sends|
      ensures !(system.sends[i].Live() && system.sends[j].Live())
    {
      assert SendOk(system.store.record, system.sends[i]);
      assert SendOk(system.store.record, system.sends[j]);
    }
  }

  /** At most once: whatever the interleaving, crashes, lost acknowledgements, retries and
      fallbacks, no two submissions are ever both accepted or still undecided. */
  lemma AtMostOneSubmission(events: seq<Event>)
    requires SoundRun(Initial, events)
    ensures Runs(Initial, events) && !TwoLive(After(Initial, events).sends)
  {
    RunKeeps(Initial, events);
    InvMeansOnce(After(Initial, events));
  }

  lemma OnlyOneAnswer(system: System, first: Response, second: Response)
    requires Inv(system) && AnsweredWith(system.sends, first) && AnsweredWith(system.sends, second)
    ensures first == second
  {
    var i :| 0 <= i < |system.sends| && system.sends[i].fate == Answered(first);
    var j :| 0 <= j < |system.sends| && system.sends[j].fate == Answered(second);
    InvMeansOnce(system);
    assert system.sends[i].Live() && system.sends[j].Live();
  }

  /** A completed operation names a stored response that exactly one provider submission gave, and every
      other submission was refused. */
  lemma CompletedMeansStoredAndAcceptedOnce(events: seq<Event>) returns (i: nat)
    requires SoundRun(Initial, events)
    requires Runs(Initial, events)
    requires After(Initial, events).store.Kept? && After(Initial, events).store.record.state.StateCompleted?
    ensures var final := After(Initial, events);
            && final.store.record.resultRef.Ref? && final.store.record.resultRef.response in final.blobs
            && i < |final.sends| && final.sends[i].fate == Answered(final.store.record.resultRef.response)
            && forall j :: 0 <= j < |final.sends| && j != i ==> final.sends[j].fate.Refusal?
  {
    RunKeeps(Initial, events);
    CompletedIsStored(events);
    var final := After(Initial, events);
    i :| 0 <= i < |final.sends| && final.sends[i].fate == Answered(final.store.record.resultRef.response);
    InvMeansOnce(final);
    assert final.sends[i].Live();
    assert forall j :: 0 <= j < |final.sends| && j != i ==> !final.sends[j].Live();
  }
}
