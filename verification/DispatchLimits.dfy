/** Where the at-most-once guarantee ends, what restores it, and the ledger's own laws. */
module DispatchLimits {
  import opened ProviderErrors
  import opened AdmissionRecord
  import opened DispatchMachine
  import opened DispatchSafety

  // The adapters' reports are truthful, and no failed lookup is misread.
  predicate Honest(system: System, event: Event)
    requires Enabled(system, event)
  {
    Truthful(system, event) && !Misread(system, event)
  }

  ghost predicate TruthfulRun(system: System, events: seq<Event>)
    requires Runs(system, events)
    decreases |events|
  {
    events == [] || (Honest(system, events[0]) && TruthfulRun(Apply(system, events[0]), events[1..]))
  }

  lemma RunStep(system: System, event: Event, rest: seq<Event>)
    requires Enabled(system, event) && Runs(Apply(system, event), rest)
    ensures Runs(system, [event] + rest)
    ensures After(system, [event] + rest) == After(Apply(system, event), rest)
    ensures Honest(system, event) && TruthfulRun(Apply(system, event), rest) ==> TruthfulRun(system, [event] + rest)
    ensures Sound(system, event) && SoundRun(Apply(system, event), rest) ==> SoundRun(system, [event] + rest)
  {
    assert ([event] + rest)[1..] == rest;
  }

  lemma {:induction false} Concatenate(system: System, left: seq<Event>, right: seq<Event>)
    requires Runs(system, left) && Runs(After(system, left), right)
    ensures Runs(system, left + right)
    ensures After(system, left + right) == After(After(system, left), right)
    ensures TruthfulRun(system, left) && TruthfulRun(After(system, left), right) ==> TruthfulRun(system, left + right)
    ensures SoundRun(system, left) && SoundRun(After(system, left), right) ==> SoundRun(system, left + right)
    decreases |left|
  {
    if left == [] {
      assert left + right == right;
    } else {
      Concatenate(Apply(system, left[0]), left[1..], right);
      assert (left + right)[1..] == left[1..] + right;
    }
  }

  lemma Chain3(s0: System, e0: Event, e1: Event, e2: Event, s1: System, s2: System)
    requires Enabled(s0, e0) && s1 == Apply(s0, e0)
    requires Enabled(s1, e1) && s2 == Apply(s1, e1)
    requires Enabled(s2, e2)
    ensures Runs(s0, [e0, e1, e2]) && After(s0, [e0, e1, e2]) == Apply(s2, e2)
    ensures Honest(s0, e0) && Honest(s1, e1) && Honest(s2, e2) ==> TruthfulRun(s0, [e0, e1, e2])
    ensures Sound(s0, e0) && Sound(s1, e1) && Sound(s2, e2) ==> SoundRun(s0, [e0, e1, e2])
  {
    RunStep(s2, e2, []);
    RunStep(s1, e1, [e2]);
    RunStep(s0, e0, [e1, e2]);
    assert [e0] + [e1, e2] == [e0, e1, e2] && [e1] + [e2] == [e1, e2] && [e2] + [] == [e2];
  }

  // Steps without an adapter's word have nothing to be dishonest about.
  predicate Quiet(event: Event)
  {
    !event.Report? && !event.Recover? && !event.Poll? && !event.CompileFault?
  }

  lemma QuietChain3(s0: System, e0: Event, e1: Event, e2: Event, s1: System, s2: System)
    requires Quiet(e0) && Quiet(e1) && Quiet(e2)
    requires Enabled(s0, e0) && s1 == Apply(s0, e0)
    requires Enabled(s1, e1) && s2 == Apply(s1, e1)
    requires Enabled(s2, e2)
    ensures Runs(s0, [e0, e1, e2]) && After(s0, [e0, e1, e2]) == Apply(s2, e2)
    ensures TruthfulRun(s0, [e0, e1, e2])
  {
    hide Enabled, Apply, Runs, After, TruthfulRun;
    Chain3(s0, e0, e1, e2, s1, s2);
  }

  // ----- the stale mark -----

  /** While a submission is live, a worker still trying under a token gets its possible-write mark
      acknowledged exactly when the record is terminal under that same token, and its write is
      then a second live submission. */
  lemma SecondSubmissionIff(system: System, w: WorkerId, leaseUntil: Time)
    requires Inv(system) && !NoLive(system.sends)
    requires At(system, w) && system.workers[w].Trying?
    ensures var marked := Apply(system, Mark(w, false, leaseUntil));
            && (marked.workers[w].Armed? <==>
                  system.store.record.state.Terminal() && system.store.record.token == system.workers[w].token)
            && (marked.workers[w].Armed? ==> TwoLive(Apply(marked, Write(w)).sends))
  {
    var i :| 0 <= i < |system.sends| && system.sends[i].Live();
    assert SendOk(system.store.record, system.sends[i]);
    var marked := Apply(system, Mark(w, false, leaseUntil));
    if marked.workers[w].Armed? {
      var sends := Apply(marked, Write(w)).sends;
      assert sends[i].Live() && sends[|system.sends|].Live();
    }
  }

  /** A takeover of an expired lease keeps the token, so such a worker exists: here the first worker
      completes and the second one, told that it may write, is answered as well. */
  lemma LeaseTakeoverSubmitsTwice() returns (events: seq<Event>)
    ensures Runs(Initial, events) && TruthfulRun(Initial, events)
    ensures After(Initial, events) == SubmittedTwice
  {
    var finish := FirstWorkerFinishes();
    var write := StaleWrite();
    var answer := StaleAnswer();
    Concatenate(Finished, write, answer);
    Concatenate(Initial, finish, write + answer);
    events := finish + (write + answer);
  }

  const Clear := Token(0, 0)
  const Owner := WorkerId(0, 0)
  const Heir := WorkerId(0, 1)

  const Begun := System(
    Kept(Record(StateReserved, Clear, 7, 10, 1000, false, NoRef)), map[], {}, 20, [], map[Owner := Trying(Clear)])

  const TakenOver := System(
    Kept(Record(StateReserved, Clear, 7, 10, 1000, false, NoRef)), map[], {}, 20, [],
    map[Owner := Trying(Clear), Heir := Trying(Clear)])

  const Written := System(
    Kept(Record(StateDispatching, Clear, 7, 40, 1000, false, NoRef)), map[], {}, 20, [Send(Clear, Taken)],
    map[Owner := Waiting(Clear, 0), Heir := Trying(Clear)])

  const Finished := System(
    Kept(Record(StateCompleted, Clear, 7, 40, 1000, false, Ref(5))), map[0 := 5], {5}, 20, [Send(Clear, Answered(5))],
    map[Owner := Ended(Returned(5)), Heir := Trying(Clear)])

  const SubmittedTwice := System(
    Kept(Record(StateCompleted, Clear, 7, 40, 1000, false, Ref(5))), map[0 := 5], {5}, 20,
    [Send(Clear, Answered(5)), Send(Clear, Answered(6))],
    map[Owner := Ended(Returned(5)), Heir := Waiting(Clear, 1)])

  lemma FirstBegin() returns (events: seq<Event>)
    ensures Runs(Initial, events) && TruthfulRun(Initial, events) && After(Initial, events) == Begun
  {
    var s1 := Apply(Initial, Spawn(Owner, 7));
    var s2 := Apply(s1, Begin(Owner, true, 10, 1000));
    QuietChain3(Initial, Spawn(Owner, 7), Begin(Owner, true, 10, 1000), Tick(20), s1, s2);
    assert Apply(s2, Tick(20)) == Begun;
    events := [Spawn(Owner, 7), Begin(Owner, true, 10, 1000), Tick(20)];
  }

  lemma Takeover() returns (events: seq<Event>)
    ensures Runs(Begun, events) && TruthfulRun(Begun, events) && After(Begun, events) == TakenOver
  {
    var s1 := Apply(Begun, Spawn(Heir, 7));
    var s2 := Apply(s1, Begin(Heir, true, 30, 1000));
    assert s2 == Goto(s1, Heir, Trying(Clear));
    assert s2.workers == TakenOver.workers;
    QuietChain3(Begun, Spawn(Heir, 7), Begin(Heir, true, 30, 1000), Tick(0), s1, s2);
    assert Apply(s2, Tick(0)) == TakenOver;
    events := [Spawn(Heir, 7), Begin(Heir, true, 30, 1000), Tick(0)];
  }

  lemma FirstSubmission() returns (events: seq<Event>)
    ensures Runs(TakenOver, events) && TruthfulRun(TakenOver, events) && After(TakenOver, events) == Written
  {
    var s1 := Apply(TakenOver, Mark(Owner, false, 40));
    var s2 := Apply(s1, Write(Owner));
    QuietChain3(TakenOver, Mark(Owner, false, 40), Write(Owner), Take(0), s1, s2);
    assert Apply(s2, Take(0)) == Written;
    events := [Mark(Owner, false, 40), Write(Owner), Take(0)];
  }

  const Responded := System(
    Kept(Record(StateDispatching, Clear, 7, 40, 1000, false, NoRef)), map[], {}, 20, [Send(Clear, Answered(5))],
    map[Owner := Storing(Clear, 5), Heir := Trying(Clear)])

  lemma FirstAnswer() returns (events: seq<Event>)
    ensures Runs(Written, events) && TruthfulRun(Written, events) && After(Written, events) == Responded
  {
    var s1 := Apply(Written, Answer(0, 5));
    var s2 := Apply(s1, Report(Owner, Success(5), false, false));
    Chain3(Written, Answer(0, 5), Report(Owner, Success(5), false, false), Tick(0), s1, s2);
    assert s2.workers == Responded.workers;
    events := [Answer(0, 5), Report(Owner, Success(5), false, false), Tick(0)];
  }

  lemma FirstCompletion() returns (events: seq<Event>)
    ensures Runs(Responded, events) && TruthfulRun(Responded, events) && After(Responded, events) == Finished
  {
    var s1 := Apply(Responded, Put(Owner, true, false));
    var s2 := Apply(s1, Finish(Owner, false));
    QuietChain3(Responded, Put(Owner, true, false), Finish(Owner, false), Tick(0), s1, s2);
    assert s2.workers == Finished.workers && s2.caches == Finished.caches && s2.blobs == Finished.blobs;
    events := [Put(Owner, true, false), Finish(Owner, false), Tick(0)];
  }

  const Unheld := System(
    Kept(Record(StateCompleted, Clear, 7, 40, 1000, false, Ref(5))), map[0 := 5], {5}, 20,
    [Send(Clear, Answered(5)), Send(Clear, InFlight)], map[Owner := Ended(Returned(5)), Heir := Waiting(Clear, 1)])

  lemma StaleWrite() returns (events: seq<Event>)
    ensures Runs(Finished, events) && TruthfulRun(Finished, events) && After(Finished, events) == Unheld
  {
    var s1 := Apply(Finished, Mark(Heir, false, 50));
    var s2 := Apply(s1, Write(Heir));
    QuietChain3(Finished, Mark(Heir, false, 50), Write(Heir), Tick(0), s1, s2);
    assert s2.workers == Unheld.workers;
    events := [Mark(Heir, false, 50), Write(Heir), Tick(0)];
  }

  lemma StaleAnswer() returns (events: seq<Event>)
    ensures Runs(Unheld, events) && TruthfulRun(Unheld, events) && After(Unheld, events) == SubmittedTwice
  {
    var s1 := Apply(Unheld, Take(1));
    var s2 := Apply(s1, Answer(1, 6));
    QuietChain3(Unheld, Take(1), Answer(1, 6), Tick(0), s1, s2);
    assert s2.sends == SubmittedTwice.sends;
    events := [Take(1), Answer(1, 6), Tick(0)];
  }

  lemma FirstWorkerFinishes() returns (events: seq<Event>)
    ensures Runs(Initial, events) && TruthfulRun(Initial, events) && After(Initial, events) == Finished
  {
    var begin := FirstBegin();
    var takeover := Takeover();
    var submission := FirstSubmission();
    var answer := FirstAnswer();
    var completion := FirstCompletion();
    Concatenate(Written, answer, completion);
    Concatenate(TakenOver, submission, answer + completion);
    Concatenate(Begun, takeover, submission + (answer + completion));
    Concatenate(Initial, begin, takeover + (submission + (answer + completion)));
    events := begin + (takeover + (submission + (answer + completion)));
  }

  // ----- exclusive leases restore the guarantee -----

  predicate Owns(system: System, w: WorkerId)
  {
    At(system, w) && Holds(system.workers[w]) && system.workers[w].token == system.store.record.token
  }

  // A lease is taken over only after its holder is gone, and a mark is never lost on the way back.
  predicate Exclusive(system: System, event: Event)
  {
    && (event.Begin? && system.store.Kept? && system.store.record.state.StateReserved? ==>
          forall v :: v in system.workers ==> !Owns(system, v))
    && (event.Mark? ==> !event.lost)
  }

  ghost predicate ExclusiveRun(system: System, events: seq<Event>)
    decreases |events|
  {
    events == [] ||
    (&& Enabled(system, events[0]) && Honest(system, events[0]) && Exclusive(system, events[0])
     && ExclusiveRun(Apply(system, events[0]), events[1..]))
  }

  // Under exclusive leases a reserved record has one owner, and only a reserved one is being tried.
  ghost predicate OwnerInv(system: System)
  {
    system.store.Kept? ==>
      && (forall v, w :: Owns(system, v) && Owns(system, w) && system.store.record.state.StateReserved? ==> v == w)
      && (forall w :: Owns(system, w) && (system.workers[w].Trying? || system.workers[w].Closing?) ==>
            system.store.record.state.StateReserved?)
  }

  lemma OwnerBeginKeeps(system: System, event: Event)
    requires Inv(system) && OwnerInv(system) && event.Begin? && Enabled(system, event) && Exclusive(system, event)
    ensures OwnerInv(Apply(system, event))
  {
    var next := Apply(system, event);
    if system.store.Kept? {
      forall v | v in system.workers
        ensures Holds(system.workers[v]) ==> system.workers[v].token.AtMost(system.store.record.token)
      {
        assert StageOk(system.store.record, system.sends, system.workers[v]);
      }
      forall v | v != event.worker && v in next.workers && Owns(next, v)
        ensures next.store == system.store && Owns(system, v)
      {
      }
    } else {
      forall v | v in next.workers && Owns(next, v)
        ensures v == event.worker
      {
      }
    }
  }

  // A store step by one worker either leaves the record alone, or was taken by an owner, or issues
  // a fresh token to that worker alone.
  lemma OwnerCommitKeeps(system: System, next: System, w: WorkerId)
    requires Inv(system) && OwnerInv(system) && At(system, w) && At(next, w)
    requires next.workers == system.workers[w := next.workers[w]]
    requires next.store != system.store ==> Owns(system, w)
    requires next.store.record.token != system.store.record.token ==>
               system.store.record.token.AtMost(next.store.record.token) && next.store.record.state.StateReserved?
    requires next.store.record.token == system.store.record.token ==>
               && (next.store.record.state.StateReserved? ==> system.store.record.state.StateReserved?)
               && (Owns(next, w) ==> Owns(system, w))
               && (next.workers[w].Trying? || next.workers[w].Closing? ==>
                     next.store == system.store && (system.workers[w].Trying? || system.workers[w].Closing?))
    ensures OwnerInv(next)
  {
    forall v | v in system.workers
      ensures Holds(system.workers[v]) ==> system.workers[v].token.AtMost(system.store.record.token)
    {
      assert StageOk(system.store.record, system.sends, system.workers[v]);
    }
    forall v | v != w && Owns(next, v)
      ensures next.store.record.token == system.store.record.token && Owns(system, v)
    {
    }
    assert system.store.record.state.StateReserved? && next.store != system.store ==>
             forall v :: Owns(system, v) ==> v == w;
  }

  lemma OwnerMarkKeeps(system: System, event: Event)
    requires Inv(system) && OwnerInv(system) && Enabled(system, event) && Exclusive(system, event)
    requires event.Mark? || event.CloseMark?
    ensures OwnerInv(Apply(system, event))
  {
    var w := event.worker;
    assert Owns(system, w) ==> system.store.record.state.StateReserved?;
    OwnerCommitKeeps(system, Apply(system, event), w);
  }

  lemma OwnerFailKeeps(system: System, event: Event)
    requires Inv(system) && OwnerInv(system) && Enabled(system, event)
    requires event.Settle? || event.CloseFail? || event.Fall?
    ensures OwnerInv(Apply(system, event))
  {
    hide Inv;
    OwnerCommitKeeps(system, Apply(system, event), event.worker);
  }

  lemma OwnerStepKeeps(system: System, event: Event)
    requires Inv(system) && OwnerInv(system) && Enabled(system, event) && Exclusive(system, event)
    ensures OwnerInv(Apply(system, event))
  {
    if event.Begin? {
      OwnerBeginKeeps(system, event);
    } else if event.Mark? || event.CloseMark? {
      OwnerMarkKeeps(system, event);
    } else if event.Settle? || event.CloseFail? || event.Fall? {
      OwnerFailKeeps(system, event);
    } else if system.store.Kept? {
      OwnerFrame(system, event);
    }
  }

  // Everything else neither starts trying nor touches a reserved record.
  lemma OwnerFrame(system: System, event: Event)
    requires OwnerInv(system) && Enabled(system, event) && system.store.Kept?
    requires !event.Begin? && !event.Mark? && !event.CloseMark? && !event.Settle? && !event.CloseFail? && !event.Fall?
    ensures OwnerInv(Apply(system, event))
  {
    hide Classify, PollVerdict, ReclassifiedPoll, Fetched;
    var next := Apply(system, event);
    assert next.store.record.token == system.store.record.token;
    assert system.store.record.state.StateReserved? ==> next.store == system.store;
    forall v | Owns(next, v)
      ensures Owns(system, v)
      ensures next.workers[v].Trying? ==> system.workers[v].Trying?
      ensures next.workers[v].Closing? ==> system.workers[v].Trying? || system.workers[v].Closing?
    {
    }
  }

  // With an exclusive lease the mark is never stale.
  lemma ExclusiveIsSound(system: System, event: Event)
    requires OwnerInv(system) && Enabled(system, event) && Honest(system, event)
    ensures Sound(system, event)
  {
    if StaleMark(system, event) {
      assert Owns(system, event.worker);
    }
  }

  lemma {:induction false} ExclusiveRunIsSound(system: System, events: seq<Event>)
    requires Inv(system) && OwnerInv(system) && ExclusiveRun(system, events)
    ensures SoundRun(system, events)
    decreases |events|
  {
    if events != [] {
      ExclusiveIsSound(system, events[0]);
      StepKeeps(system, events[0]);
      OwnerStepKeeps(system, events[0]);
      ExclusiveRunIsSound(Apply(system, events[0]), events[1..]);
    }
  }

  /** The guarantee in terms a deployment controls: if every lease outlives its holder, adapters are
      truthful and no lookup fails with an error that would be misread, no run submits twice. */
  lemma ExclusiveLeasesSubmitOnce(events: seq<Event>)
    requires ExclusiveRun(Initial, events)
    ensures Runs(Initial, events)
    ensures !TwoLive(After(Initial, events).sends)
  {
    ExclusiveRunIsSound(Initial, events);
    RunKeeps(Initial, events);
    InvMeansOnce(After(Initial, events));
  }
}
