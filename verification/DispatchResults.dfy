/** What callers get back: stored responses, replays and repairs
    (golang/engine/generate.go, golang/internal/runtime/result_store.go). */
module DispatchResults {
  import opened ProviderErrors
  import opened AdmissionRecord
  import opened DispatchMachine
  import opened DispatchStorage
  import opened DispatchSafety
  import opened DispatchLimits
  import opened DispatchLookups
  import opened DispatchLedger

  // ----- one answer -----

  lemma StepExtends(system: System, event: Event)
    requires Enabled(system, event)
    ensures Extends(system.sends, Apply(system, event).sends)
  {
    hide Classify, PollVerdict, AfterReport, AfterPoll, AfterVerdict, Fetched;
    hide Complete, Fail, Continue, MarkDispatching, MarkProviderPending;
  }

  lemma {:induction false} AnswersPersist(system: System, events: seq<Event>, response: Response)
    requires Runs(system, events) && AnsweredWith(system.sends, response)
    ensures AnsweredWith(After(system, events).sends, response)
    decreases |events|
  {
    if events != [] {
      StepExtends(system, events[0]);
      AnswersStay(system.sends, Apply(system, events[0]).sends, response);
      AnswersPersist(Apply(system, events[0]), events[1..], response);
    }
  }

  /** Over every run that submits soundly, all callers that get a response get the same one, at whatever
      times and in whatever processes, and it is the one the completed ledger refers to. */
  lemma EveryCallerGetsOneAnswer(first: seq<Event>, rest: seq<Event>, v: WorkerId, w: WorkerId,
                                 early: Response, late: Response)
    requires Runs(Initial, first) && SoundRun(Initial, first)
    requires Runs(After(Initial, first), rest) && SoundRun(After(Initial, first), rest)
    requires v in After(Initial, first).workers && After(Initial, first).workers[v] == Ended(Returned(early))
    requires w in After(After(Initial, first), rest).workers
    requires After(After(Initial, first), rest).workers[w] == Ended(Returned(late))
    ensures early == late
    ensures var final := After(After(Initial, first), rest);
            final.store.Kept? && final.store.record.state.StateCompleted? ==> final.store.record.resultRef == Ref(late)
  {
    var middle := After(Initial, first);
    var final := After(middle, rest);
    RunKeeps(Initial, first);
    RunKeeps(middle, rest);
    assert middle.store.Kept? ==> StageOk(middle.store.record, middle.sends, middle.workers[v]);
    assert final.store.Kept? ==> StageOk(final.store.record, final.sends, final.workers[w]);
    assert Carried(middle.workers[v]) == Saved(early) && Carried(final.workers[w]) == Saved(late);
    AnswersPersist(middle, rest, early);
    OnlyOneAnswer(final, early, late);
    if final.store.Kept? && final.store.record.state.StateCompleted? {
      OnlyOneAnswer(final, final.store.record.resultRef.response, late);
    }
  }

  // ----- replay -----

  // An identical request that finds the operation completed and not yet expired.
  predicate Asks(system: System, w: WorkerId)
  {
    && At(system, w) && system.workers[w] == Planning(system.store.record.digest)
    && (system.store.record.expiresAt == 0 || system.now < system.store.record.expiresAt)
  }

  /** From the moment an operation is completed, every unexpired identical retry, however much later and
      in whatever process, returns the response recorded then, over every run that submits soundly. */
  lemma CompletedReplays(first: seq<Event>, rest: seq<Event>, w: WorkerId)
    requires Runs(Initial, first) && SoundRun(Initial, first)
    requires Runs(After(Initial, first), rest) && SoundRun(After(Initial, first), rest)
    requires After(Initial, first).store.Kept? && After(Initial, first).store.record.state.StateCompleted?
    requires Asks(After(After(Initial, first), rest), w)
    ensures After(Initial, first).store.record.resultRef.Ref?
    ensures var final := After(After(Initial, first), rest);
            && Enabled(final, Replay(w, true))
            && Apply(final, Replay(w, true)).workers[w] ==
               Ended(Returned(After(Initial, first).store.record.resultRef.response))
  {
    var middle := After(Initial, first);
    var final := After(middle, rest);
    RunKeeps(Initial, first);
    RunKeeps(middle, rest);
    RunKeepsBacked(Initial, first);
    RunKeepsBacked(middle, rest);
    TerminalIsFinal(middle, rest);
    if w.process in final.caches {
      OnlyOneAnswer(final, final.caches[w.process], final.store.record.resultRef.response);
    }
  }

  /** Whatever the run, a replay in a process returns the recorded response exactly when that process
      remembers none or remembers that one: what it remembers goes before the ledger's reference. */
  lemma ReplayReturnsRecordedIff(first: seq<Event>, rest: seq<Event>, w: WorkerId)
    requires Runs(Initial, first) && Runs(After(Initial, first), rest)
    requires After(Initial, first).store.Kept? && After(Initial, first).store.record.state.StateCompleted?
    requires Asks(After(After(Initial, first), rest), w)
    ensures After(Initial, first).store.record.resultRef.Ref?
    ensures var final := After(After(Initial, first), rest);
            var recorded := After(Initial, first).store.record.resultRef.response;
            && Enabled(final, Replay(w, true))
            && (Apply(final, Replay(w, true)).workers[w] == Ended(Returned(recorded)) <==>
                  (w.process in final.caches ==> final.caches[w.process] == recorded))
  {
    RunKeepsBacked(Initial, first);
    RunKeepsBacked(After(Initial, first), rest);
    TerminalIsFinal(After(Initial, first), rest);
  }

  const Retry := WorkerId(0, 2)

  /** The second answer of a lease takeover replaces the first one in the memory of the process. The
      first caller got 5 and the ledger refers to 5; an identical retry then gets 6. */
  lemma StaleAnswerIsReplayed() returns (events: seq<Event>)
    ensures Runs(Initial, events) && TruthfulRun(Initial, events)
    ensures var final := After(Initial, events);
            && final.store == Finished.store && final.store.record.resultRef == Ref(5)
            && Owner in final.workers && final.workers[Owner] == Ended(Returned(5))
            && Retry in final.workers && final.workers[Retry] == Ended(Returned(6))
  {
    var twice := LeaseTakeoverSubmitsTwice();
    var overwrite := OverwritingRun();
    var replay := ReplayingRun();
    Concatenate(SubmittedTwice, overwrite, replay);
    Concatenate(Initial, twice, overwrite + replay);
    events := twice + (overwrite + replay);
  }

  const Overwritten := System(
    Kept(Record(StateCompleted, Clear, 7, 40, 1000, false, Ref(5))), map[0 := 6], {5, 6}, 20,
    [Send(Clear, Answered(5)), Send(Clear, Answered(6))],
    map[Owner := Ended(Returned(5)), Heir := Completing(Clear, 6)])

  lemma OverwritingRun() returns (events: seq<Event>)
    ensures Runs(SubmittedTwice, events) && TruthfulRun(SubmittedTwice, events)
    ensures After(SubmittedTwice, events) == Overwritten
  {
    hide Classify, PollVerdict, ReclassifiedPoll, Denies, Disowns, MisreadPoll, ReopeningLookup, ReclassifiedLookup;
    var s1 := Apply(SubmittedTwice, Report(Heir, Success(6), false, false));
    var s2 := Apply(s1, Put(Heir, true, false));
    Chain3(SubmittedTwice, Report(Heir, Success(6), false, false), Put(Heir, true, false), Tick(0), s1, s2);
    assert s2.workers == Overwritten.workers && s2.caches == Overwritten.caches && s2.blobs == Overwritten.blobs;
    events := [Report(Heir, Success(6), false, false), Put(Heir, true, false), Tick(0)];
  }

  lemma ReplayingRun() returns (events: seq<Event>)
    ensures Runs(Overwritten, events) && TruthfulRun(Overwritten, events)
    ensures After(Overwritten, events) == Overwritten.(workers := Overwritten.workers[Retry := Ended(Returned(6))])
  {
    hide Classify, PollVerdict, ReclassifiedPoll, Denies, Disowns, MisreadPoll, ReopeningLookup, ReclassifiedLookup;
    var s1 := Apply(Overwritten, Spawn(Retry, 7));
    var s2 := Apply(s1, Replay(Retry, true));
    Chain3(Overwritten, Spawn(Retry, 7), Replay(Retry, true), Tick(0), s1, s2);
    assert s2.workers == Overwritten.workers[Retry := Ended(Returned(6))];
    events := [Spawn(Retry, 7), Replay(Retry, true), Tick(0)];
  }

  // ----- a crash between the result write and the ledger completion -----

  // A step of one worker that makes no adapter call, or the passing of time.
  predicate Unaided(event: Event, w: WorkerId)
  {
    match event
    case Tick(_) => true
    case Spawn(v, _) => v == w
    case Crash(v) => v == w
    case Replay(v, _) => v == w
    case Begin(v, _, _, _) => v == w
    case Resolve(v, _) => v == w
    case Repair(v, _, _) => v == w
    case CompileFault(v, _) => v == w
    case Mark(v, _, _) => v == w
    case Persist(v, _, _) => v == w
    case Settle(v, _) => v == w
    case Fall(v, _, _, _) => v == w
    case Put(v, _, _) => v == w
    case Finish(v, _) => v == w
    case Close(v, _) => v == w
    case CloseMark(v, _) => v == w
    case CloseFail(v, _) => v == w
    case _ => false
  }

  predicate AllUnaided(events: seq<Event>, w: WorkerId)
  {
    forall i :: 0 <= i < |events| ==> Unaided(events[i], w)
  }

  // A retry on its own, with no adapter call, gets a response.
  ghost predicate Repairable(system: System, w: WorkerId, response: Response)
  {
    exists events ::
      && Runs(system, events) && AllUnaided(events, w)
      && w in After(system, events).workers
      && After(system, events).workers[w] == Ended(Returned(response))
  }

  // A dispatching operation, as a worker that has not started, or started afresh, finds it.
  predicate Stuck(system: System, w: WorkerId)
  {
    && system.store.Kept? && system.store.record.state.StateDispatching? && system.store.record.resultRef.NoRef?
    && w.process !in system.caches
    && (w in system.workers ==>
          var stage := system.workers[w];
          || stage.Planning? || stage == Ended(Failed) || stage.Recovering?
          || (stage.Resolving? && stage.found.StateDispatching?))
  }

  lemma {:induction false} StuckStays(system: System, events: seq<Event>, w: WorkerId)
    requires Runs(system, events) && AllUnaided(events, w) && Stuck(system, w)
    ensures Stuck(After(system, events), w)
    decreases |events|
  {
    if events != [] {
      assert Unaided(events[0], w);
      assert Stuck(Apply(system, events[0]), w);
      assert forall i :: 0 <= i < |events[1..]| ==> events[1..][i] == events[i + 1];
      StuckStays(Apply(system, events[0]), events[1..], w);
    }
  }

  lemma RepairingRun(system: System, w: WorkerId) returns (events: seq<Event>)
    requires system.store.Kept? && system.store.record.state.StateDispatching? && system.store.record.resultRef.NoRef?
    requires w !in system.workers && w.process in system.caches && system.caches[w.process] in system.blobs
    ensures Runs(system, events) && AllUnaided(events, w)
    ensures After(system, events) ==
            Goto(system, w, Repairing(system.store.record.token, system.caches[w.process]))
  {
    var digest := system.store.record.digest;
    var s1 := Apply(system, Spawn(w, digest));
    var s2 := Apply(s1, Begin(w, true, 0, 0));
    Chain3(system, Spawn(w, digest), Begin(w, true, 0, 0), Resolve(w, true), s1, s2);
    events := [Spawn(w, digest), Begin(w, true, 0, 0), Resolve(w, true)];
    assert After(system, events).workers ==
           system.workers[w := Repairing(system.store.record.token, system.caches[w.process])];
  }

  lemma CompletingRun(system: System, w: WorkerId) returns (events: seq<Event>)
    requires At(system, w) && system.store.record.state.StateDispatching?
    requires system.workers[w].Repairing? && system.workers[w].token == system.store.record.token
    ensures Runs(system, events) && AllUnaided(events, w)
    ensures var response := system.workers[w].response;
            var next := After(system, events);
            && next.store == Kept(system.store.record.(state := StateCompleted, resultRef := Ref(response)))
            && next.workers == system.workers[w := Ended(Returned(response))]
            && next.sends == system.sends
  {
    var s1 := Apply(system, Repair(w, true, false));
    var s2 := Apply(s1, Finish(w, false));
    Chain3(system, Repair(w, true, false), Finish(w, false), Tick(0), s1, s2);
    events := [Repair(w, true, false), Finish(w, false), Tick(0)];
    assert s2.workers == system.workers[w := Ended(Returned(system.workers[w].response))];
  }

  /** A worker stored its result and crashed before completing the ledger. A retry gets the stored
      response without an adapter call exactly when it runs in the process that remembers it. */
  lemma CrashBeforeCompletionIsRepairedIff(run: seq<Event>, w: WorkerId, response: Response)
    requires Runs(Initial, run)
    requires After(Initial, run).store.Kept? && After(Initial, run).store.record.state.StateDispatching?
    requires var system := After(Initial, run);
             w !in system.workers && (w.process in system.caches ==> system.caches[w.process] == response)
    ensures Repairable(After(Initial, run), w, response) <==> w.process in After(Initial, run).caches
  {
    var system := After(Initial, run);
    RunKeepsBacked(Initial, run);
    if w.process in system.caches {
      var resolve := RepairingRun(system, w);
      var complete := CompletingRun(After(system, resolve), w);
      Concatenate(system, resolve, complete);
      assert AllUnaided(resolve + complete, w);
    } else {
      forall events | Runs(system, events) && AllUnaided(events, w)
        ensures w in After(system, events).workers ==> After(system, events).workers[w] != Ended(Returned(response))
      {
        StuckStays(system, events, w);
      }
    }
  }

  const Elsewhere := WorkerId(1, 0)

  const Lost := System(
    Kept(Record(StateAmbiguous, Clear, 7, 10, 1000, false, NoRef)), map[], {5}, 0, [Send(Clear, Answered(5))],
    map[Elsewhere := Ended(Failed)])

  /** The process that stored the result restarts before the ledger is completed, and the adapter has no
      lookup by key. The answer was given and is still stored, and no later request ever gets it. */
  lemma StoredResultIsLost(later: seq<Event>, w: WorkerId) returns (events: seq<Event>)
    requires Runs(Lost, later)
    ensures Runs(Initial, events) && SoundRun(Initial, events) && After(Initial, events) == Lost
    ensures After(Lost, later).store == Lost.store
    ensures w in After(Lost, later).workers && After(Lost, later).workers[w].Planning? ==>
              Apply(After(Lost, later), Begin(w, true, 0, 0)).workers[w] == Ended(Failed)
  {
    TerminalIsFinal(Lost, later);
    var submitted := SubmittedRun();
    var store := StoringRun();
    var restart := RestartRun();
    var retry := FruitlessRun();
    Concatenate(Restarted, restart, retry);
    Concatenate(Submitted, store, restart + retry);
    Concatenate(Initial, submitted, store + (restart + retry));
    events := submitted + (store + (restart + retry));
  }

  const Restarted := System(
    Kept(Record(StateDispatching, Clear, 7, 10, 1000, false, NoRef)), map[], {5}, 0, [Send(Clear, Answered(5))], map[])

  const Undecided := System(
    Kept(Record(StateDispatching, Clear, 7, 10, 1000, false, NoRef)), map[], {5}, 0, [Send(Clear, Answered(5))],
    map[Elsewhere := Recovering(Clear, FromDispatching, Unknown)])

  lemma AnsweredRun() returns (events: seq<Event>)
    ensures Runs(Submitted, events) && SoundRun(Submitted, events)
    ensures After(Submitted, events) ==
            Submitted.(caches := map[0 := 5], blobs := {5}, sends := [Send(Clear, Answered(5))],
                       workers := map[Owner := Completing(Clear, 5)])
  {
    hide Classify, PollVerdict, ReclassifiedPoll, Denies, Disowns, MisreadPoll, ReopeningLookup, ReclassifiedLookup;
    var s1 := Apply(Submitted, Answer(0, 5));
    var s2 := Apply(s1, Report(Owner, Success(5), false, false));
    Chain3(Submitted, Answer(0, 5), Report(Owner, Success(5), false, false), Put(Owner, true, false), s1, s2);
    events := [Answer(0, 5), Report(Owner, Success(5), false, false), Put(Owner, true, false)];
    assert Apply(s2, Put(Owner, true, false)).workers == map[Owner := Completing(Clear, 5)];
    assert Apply(s2, Put(Owner, true, false)).caches == map[0 := 5];
    assert Apply(s2, Put(Owner, true, false)).blobs == {5};
  }

  lemma StoringRun() returns (events: seq<Event>)
    ensures Runs(Submitted, events) && SoundRun(Submitted, events) && After(Submitted, events) == Restarted
  {
    var answered := AnsweredRun();
    var s0 := After(Submitted, answered);
    var s1 := Apply(s0, Crash(Owner));
    var s2 := Apply(s1, Forget(0));
    Chain3(s0, Crash(Owner), Forget(0), Tick(0), s1, s2);
    assert s2.workers == map[] && s2.caches == map[];
    Concatenate(Submitted, answered, [Crash(Owner), Forget(0), Tick(0)]);
    events := answered + [Crash(Owner), Forget(0), Tick(0)];
  }

  lemma RestartRun() returns (events: seq<Event>)
    ensures Runs(Restarted, events) && SoundRun(Restarted, events) && After(Restarted, events) == Undecided
  {
    hide Classify, PollVerdict, ReclassifiedPoll, Denies, Disowns, MisreadPoll, ReopeningLookup, ReclassifiedLookup;
    var s1 := Apply(Restarted, Spawn(Elsewhere, 7));
    var s2 := Apply(s1, Begin(Elsewhere, true, 0, 0));
    Chain3(Restarted, Spawn(Elsewhere, 7), Begin(Elsewhere, true, 0, 0), Resolve(Elsewhere, true), s1, s2);
    events := [Spawn(Elsewhere, 7), Begin(Elsewhere, true, 0, 0), Resolve(Elsewhere, true)];
    assert Apply(s2, Resolve(Elsewhere, true)).workers == Undecided.workers;
  }

  lemma FruitlessRun() returns (events: seq<Event>)
    ensures Runs(Undecided, events) && SoundRun(Undecided, events) && After(Undecided, events) == Lost
  {
    hide Classify, PollVerdict, ReclassifiedPoll, Denies, Disowns, MisreadPoll, ReopeningLookup, ReclassifiedLookup;
    var recover := Recover(Elsewhere, Invalid, false, false);
    var s1 := Apply(Undecided, recover);
    var s2 := Apply(s1, Settle(Elsewhere, false));
    Chain3(Undecided, recover, Settle(Elsewhere, false), Tick(0), s1, s2);
    assert s2.workers == Lost.workers;
    events := [recover, Settle(Elsewhere, false), Tick(0)];
  }
}
