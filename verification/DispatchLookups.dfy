/** Failed lookups taken for a verdict on the submission they ask about
    (golang/engine/resumable.go, golang/engine/provider_pending.go). */
module DispatchLookups {
  import opened ProviderErrors
  import opened AdmissionRecord
  import opened DispatchMachine
  import opened DispatchSafety
  import opened DispatchLimits

  // From here, some run without a further fault of any kind has two live submissions.
  ghost predicate CanSubmitTwice(system: System)
  {
    exists events :: Runs(system, events) && SoundRun(system, events) && TwoLive(After(system, events).sends)
  }

  lemma InvariantForbidsTwo(system: System)
    requires Inv(system)
    ensures !CanSubmitTwice(system)
  {
    forall events | Runs(system, events) && SoundRun(system, events)
      ensures !TwoLive(After(system, events).sends)
    {
      RunKeeps(system, events);
      InvMeansOnce(After(system, events));
    }
  }

  // A failure recorded as reopenable is reserved again by the next identical request.
  lemma ReopeningRun(system: System, w: WorkerId, u: WorkerId) returns (events: seq<Event>)
    requires At(system, w) && u !in system.workers && !system.store.record.state.Terminal()
    requires system.workers[w].Settling? && system.workers[w].retryable
    requires system.workers[w].certainty.Definite() && system.workers[w].token == system.store.record.token
    ensures Runs(system, events) && SoundRun(system, events)
    ensures var next := After(system, events);
            && next.sends == system.sends && At(next, u) && next.store.record.state.StateReserved?
            && next.workers[u] == Trying(next.store.record.token)
  {
    hide Classify, PollVerdict, ReclassifiedPoll, Denies, Disowns, MisreadPoll, ReopeningLookup, ReclassifiedLookup;
    var record := system.store.record;
    var s1 := Apply(system, Settle(w, false));
    assert s1.store == Kept(record.(state := StateDefiniteFailed, retryable := true));
    var s2 := Apply(s1, Spawn(u, record.digest));
    Chain3(system, Settle(w, false), Spawn(u, record.digest), Begin(u, true, 0, 0), s1, s2);
    events := [Settle(w, false), Spawn(u, record.digest), Begin(u, true, 0, 0)];
  }

  // A reserved operation is marked and written.
  lemma SubmissionRun(system: System, u: WorkerId) returns (events: seq<Event>)
    requires At(system, u) && system.store.record.state.StateReserved?
    requires system.workers[u] == Trying(system.store.record.token)
    ensures Runs(system, events) && SoundRun(system, events)
    ensures After(system, events).sends == system.sends + [Send(system.store.record.token, InFlight)]
  {
    hide Classify, PollVerdict, ReclassifiedPoll, Denies, Disowns, MisreadPoll, ReopeningLookup, ReclassifiedLookup;
    var s1 := Apply(system, Mark(u, false, 0));
    var s2 := Apply(s1, Write(u));
    Chain3(system, Mark(u, false, 0), Write(u), Tick(0), s1, s2);
    events := [Mark(u, false, 0), Write(u), Tick(0)];
  }

  // The operation is reserved again while a submission is live.
  lemma ReservedAgain(system: System, before: seq<Event>, u: WorkerId)
    requires Runs(system, before) && SoundRun(system, before) && !NoLive(system.sends)
    requires var next := After(system, before);
             && next.sends == system.sends && At(next, u) && next.store.record.state.StateReserved?
             && next.workers[u] == Trying(next.store.record.token)
    ensures CanSubmitTwice(system)
  {
    var submit := SubmissionRun(After(system, before), u);
    Concatenate(system, before, submit);
    var i :| 0 <= i < |system.sends| && system.sends[i].Live();
    var sends := After(system, before + submit).sends;
    assert sends[i].Live() && sends[|system.sends|].Live();
  }

  lemma ReopenedSubmission(system: System, w: WorkerId, u: WorkerId)
    requires At(system, w) && u !in system.workers && !NoLive(system.sends)
    requires !system.store.record.state.Terminal()
    requires system.workers[w].Settling? && system.workers[w].retryable
    requires system.workers[w].certainty.Definite() && system.workers[w].token == system.store.record.token
    ensures CanSubmitTwice(system)
  {
    var reopen := ReopeningRun(system, w, u);
    ReservedAgain(system, reopen, u);
  }

  lemma FallbackSubmission(system: System, w: WorkerId)
    requires At(system, w) && !NoLive(system.sends) && system.store.record.state.StateDispatching?
    requires system.workers[w] == Falling(system.store.record.token)
    ensures CanSubmitTwice(system)
  {
    var fall := Fall(w, true, false, 0);
    RunStep(system, fall, []);
    assert [fall] + [] == [fall];
    ReservedAgain(system, [fall], w);
  }

  /** A poll that fails opens the way to a second submission of a live operation exactly on the errors
      of `MisreadPoll`, which depend on who polls. On every other error the operation stays safe. */
  lemma FailedPollSubmitsTwiceIff(system: System, w: WorkerId, u: WorkerId, fault: Fault, more: bool)
    requires Inv(system) && At(system, w) && u !in system.workers && !NoLive(system.sends)
    requires system.store.record.state.StateProviderPending?
    requires system.workers[w].Polling? && system.workers[w].token == system.store.record.token
    ensures CanSubmitTwice(Apply(system, Poll(w, Failure(fault), true, more))) <==>
            MisreadPoll(fault, system.workers[w].origin, more)
  {
    var poll := Poll(w, Failure(fault), true, more);
    if MisreadPoll(fault, system.workers[w].origin, more) {
      PollFailureReopensIff(fault);
      ReopenedSubmission(Apply(system, poll), w, u);
    } else {
      StepKeeps(system, poll);
      InvariantForbidsTwo(Apply(system, poll));
    }
  }

  /** A recovery lookup that fails opens the way to a second submission exactly when its error carries
      the egress-denied marker, whether the submitting attempt or a retry asks, and whether or not a
      candidate is left. */
  lemma FailedRecoverySubmitsTwiceIff(system: System, w: WorkerId, u: WorkerId, lookup: Fault, more: bool)
    requires Inv(system) && At(system, w) && u !in system.workers && !NoLive(system.sends)
    requires system.store.record.state.StateDispatching?
    requires system.workers[w].Recovering? && system.workers[w].token == system.store.record.token
    ensures CanSubmitTwice(Apply(system, Recover(w, Failure(lookup), true, more))) <==> Carries(lookup, EgressDenied)
  {
    var recover := Recover(w, Failure(lookup), true, more);
    if Carries(lookup, EgressDenied) {
      assert StageOk(system.store.record, system.sends, system.workers[w]);
      RecoveryFailureStaysUndecidedIff(system.workers[w].verdict, lookup);
      if system.workers[w].origin.FromPlan? && more {
        FallbackSubmission(Apply(system, recover), w);
      } else {
        ReopenedSubmission(Apply(system, recover), w, u);
      }
    } else {
      StepKeeps(system, recover);
      InvariantForbidsTwo(Apply(system, recover));
    }
  }

  // ----- both happen -----

  const Marked := System(
    Kept(Record(StateDispatching, Clear, 7, 10, 1000, false, NoRef)), map[], {}, 0, [], map[Owner := Armed(Clear)])

  const Submitted := System(
    Kept(Record(StateDispatching, Clear, 7, 10, 1000, false, NoRef)), map[], {}, 0, [Send(Clear, Taken)],
    map[Owner := Waiting(Clear, 0)])

  const Outstanding := System(
    Kept(Record(StateProviderPending, Clear, 7, 10, 1000, false, NoRef)), map[], {}, 0, [Send(Clear, Taken)],
    map[Owner := Polling(Clear, FromPlan)])

  lemma MarkedRun() returns (events: seq<Event>)
    ensures Runs(Initial, events) && SoundRun(Initial, events) && After(Initial, events) == Marked
  {
    hide Classify, PollVerdict, ReclassifiedPoll, Denies, Disowns, MisreadPoll, ReopeningLookup, ReclassifiedLookup;
    var s1 := Apply(Initial, Spawn(Owner, 7));
    var s2 := Apply(s1, Begin(Owner, true, 10, 1000));
    Chain3(Initial, Spawn(Owner, 7), Begin(Owner, true, 10, 1000), Mark(Owner, false, 10), s1, s2);
    assert Apply(s2, Mark(Owner, false, 10)).workers == Marked.workers;
    events := [Spawn(Owner, 7), Begin(Owner, true, 10, 1000), Mark(Owner, false, 10)];
  }

  lemma SubmittedRun() returns (events: seq<Event>)
    ensures Runs(Initial, events) && SoundRun(Initial, events) && After(Initial, events) == Submitted
  {
    hide Classify, PollVerdict, ReclassifiedPoll, Denies, Disowns, MisreadPoll, ReopeningLookup, ReclassifiedLookup;
    var marked := MarkedRun();
    var s1 := Apply(Marked, Write(Owner));
    var s2 := Apply(s1, Take(0));
    Chain3(Marked, Write(Owner), Take(0), Tick(0), s1, s2);
    assert s2.workers == Submitted.workers;
    Concatenate(Initial, marked, [Write(Owner), Take(0), Tick(0)]);
    events := marked + [Write(Owner), Take(0), Tick(0)];
  }

  lemma PendingRun() returns (events: seq<Event>)
    ensures Runs(Submitted, events) && SoundRun(Submitted, events) && After(Submitted, events) == Outstanding
  {
    hide Classify, PollVerdict, ReclassifiedPoll, Denies, Disowns, MisreadPoll, ReopeningLookup, ReclassifiedLookup;
    var s1 := Apply(Submitted, Report(Owner, Pending, false, false));
    var s2 := Apply(s1, Persist(Owner, true, false));
    Chain3(Submitted, Report(Owner, Pending, false, false), Persist(Owner, true, false), Tick(0), s1, s2);
    assert s2.workers == Outstanding.workers;
    events := [Report(Owner, Pending, false, false), Persist(Owner, true, false), Tick(0)];
  }

  /** The provider took the request and answered that it is pending; the submitting attempt's first poll
      cannot connect, and no candidate is left. */
  lemma UnreachablePollSubmitsTwice() returns (events: seq<Event>)
    ensures Runs(Initial, events) && SoundRun(Initial, events)
    ensures var pending := After(Initial, events);
            var poll := Poll(Owner, Failure(ConnectionFailed), true, false);
            Enabled(pending, poll) && Truthful(pending, poll) && CanSubmitTwice(Apply(pending, poll))
  {
    hide Inv, CanSubmitTwice, Runs, After, SoundRun, PollVerdict, ReclassifiedPoll, Classify;
    var submitted := SubmittedRun();
    var persist := PendingRun();
    Concatenate(Initial, submitted, persist);
    events := submitted + persist;
    RunKeeps(Initial, events);
    UnreachablePollReopens();
    assert Outstanding.sends[0].Live();
    FailedPollSubmitsTwiceIff(Outstanding, Owner, Heir, ConnectionFailed, false);
  }

  const Unanswered := System(
    Kept(Record(StateDispatching, Clear, 7, 10, 1000, false, NoRef)), map[], {}, 0, [Send(Clear, Taken)],
    map[Owner := Recovering(Clear, FromPlan, Classify(Opaque, true))])

  lemma LostAnswerRun() returns (events: seq<Event>)
    ensures Runs(Submitted, events) && SoundRun(Submitted, events) && After(Submitted, events) == Unanswered
  {
    var report := Report(Owner, Failure(Opaque), true, false);
    RunStep(Submitted, report, []);
    assert [report] + [] == [report];
    events := [report];
    assert Apply(Submitted, report).workers == Unanswered.workers;
  }

  lemma UnansweredIsRecovering()
    ensures At(Unanswered, Owner) && Heir !in Unanswered.workers && !NoLive(Unanswered.sends)
    ensures Unanswered.workers[Owner].Recovering? && Unanswered.workers[Owner].token == Unanswered.store.record.token
  {
    assert Unanswered.sends[0].Live();
  }

  /** The provider took the request but its answer was lost; the recovery lookup is stopped by the
      egress guard. */
  lemma DeniedRecoverySubmitsTwice() returns (events: seq<Event>)
    ensures Runs(Initial, events) && SoundRun(Initial, events)
    ensures var unknown := After(Initial, events);
            var recover := Recover(Owner, Failure(EgressDenied), true, false);
            Enabled(unknown, recover) && Truthful(unknown, recover) && CanSubmitTwice(Apply(unknown, recover))
  {
    hide Inv, CanSubmitTwice, Runs, After, SoundRun;
    var submitted := SubmittedRun();
    var lost := LostAnswerRun();
    Concatenate(Initial, submitted, lost);
    events := submitted + lost;
    RunKeeps(Initial, events);
    UnansweredIsRecovering();
    FailedRecoverySubmitsTwiceIff(Unanswered, Owner, Heir, EgressDenied, false);
  }
}
