/**
 * The trace exporter's admission: a bounded number of slots and a circuit breaker, shared by callers
 * that take their steps in any order.
 *
 * A caller claims a slot, decides under the lock, sends, reports under the lock and gives the slot
 * back.  Each of these is one step here; the lock makes deciding and reporting atomic.
 */
module ExportBreaker {
  const THRESHOLD := 3
  const COOLDOWN := 30_000_000_000

  type Caller = nat

  // A request in flight remembers when it was admitted and whether the breaker was tripped then.
  datatype Phase = Claimed | Denied | Sending(since: int, probe: bool) | Reported

  // How a request ended: nothing learned, a failure that counts, or an answer.
  datatype Ending = Throttled | Canceled | Failed | Answered

  datatype State = State(
    capacity: nat,
    now: int,
    failures: nat,
    openUntil: int,
    slots: nat,
    callers: map<Caller, Phase>)
  {
    predicate Tripped() { failures >= THRESHOLD }
  }

  datatype Event =
    | Tick(elapsed: nat)
    | Claim(caller: Caller)
    | Decide(caller: Caller)
    | Report(caller: Caller, ending: Ending)
    | Return(caller: Caller)

  predicate InPhase(s: State, caller: Caller, phase: Phase)
  {
    caller in s.callers && s.callers[caller] == phase
  }

  // A caller that finds every slot taken fails at once and holds nothing, so it takes no step here.
  // Giving a slot back takes one out of the channel, which would block on an empty channel.
  predicate Enabled(s: State, e: Event)
  {
    match e
    case Tick(_) => true
    case Claim(c) => c !in s.callers && s.slots < s.capacity
    case Decide(c) => InPhase(s, c, Claimed)
    case Report(c, _) => c in s.callers && s.callers[c].Sending?
    case Return(c) => s.slots > 0 && (InPhase(s, c, Denied) || InPhase(s, c, Reported))
  }

  predicate Admits(s: State)
  {
    !s.Tripped() || s.now >= s.openUntil
  }

  function Recorded(s: State, ending: Ending): State
  {
    match ending
    case Throttled => s
    case Canceled => s
    case Failed =>
      var failures := s.failures + 1;
      s.(failures := failures, openUntil := if failures >= THRESHOLD then s.now + COOLDOWN else s.openUntil)
    case Answered => s.(failures := 0)
  }

  function Apply(s: State, e: Event): State
    requires Enabled(s, e)
  {
    match e
    case Tick(elapsed) => s.(now := s.now + elapsed)
    case Claim(c) => s.(slots := s.slots + 1, callers := s.callers[c := Claimed])
    case Decide(c) =>
      if !Admits(s) then s.(callers := s.callers[c := Denied])
      else s.(
        openUntil := if s.Tripped() then s.now + COOLDOWN else s.openUntil,
        callers := s.callers[c := Sending(s.now, s.Tripped())])
    case Report(c, ending) => Recorded(s, ending).(callers := s.callers[c := Reported])
    case Return(c) => s.(slots := s.slots - 1, callers := s.callers - {c})
  }

  predicate Initial(s: State)
  {
    s.failures == 0 && s.openUntil == 0 <= s.now && s.slots == 0 && s.callers == map[]
  }

  predicate Runs(s: State, events: seq<Event>)
    decreases events
  {
    events == [] || (Enabled(s, events[0]) && Runs(Apply(s, events[0]), events[1..]))
  }

  function After(s: State, events: seq<Event>): State
    requires Runs(s, events)
    decreases events
  {
    if events == [] then s else After(Apply(s, events[0]), events[1..])
  }

  // Slots taken are exactly the slots held, and no hold reaches further than a cooldown from now.
  predicate Inv(s: State)
  {
    && s.slots == |s.callers| <= s.capacity
    && s.openUntil <= s.now + COOLDOWN
  }

  lemma StepKeeps(s: State, e: Event)
    requires Inv(s) && Enabled(s, e)
    ensures Inv(Apply(s, e)) && Apply(s, e).capacity == s.capacity && s.now <= Apply(s, e).now
  {
    match e
    case Claim(c) => assert s.callers[c := Claimed].Keys == s.callers.Keys + {c};
    case Decide(c) => SamePhaseCount(s.callers, c, Apply(s, e).callers[c]);
    case Report(c, _) => SamePhaseCount(s.callers, c, Reported);
    case Return(c) => assert (s.callers - {c}).Keys == s.callers.Keys - {c};
    case _ =>
  }

  lemma SamePhaseCount(callers: map<Caller, Phase>, c: Caller, phase: Phase)
    requires c in callers
    ensures |callers[c := phase]| == |callers|
  {
    assert callers[c := phase].Keys == callers.Keys;
  }

  lemma {:induction false} RunKeeps(s: State, events: seq<Event>)
    requires Inv(s) && Runs(s, events)
    ensures Inv(After(s, events)) && After(s, events).capacity == s.capacity && s.now <= After(s, events).now
    decreases events
  {
    if events != [] {
      StepKeeps(s, events[0]);
      RunKeeps(Apply(s, events[0]), events[1..]);
    }
  }

  function InFlight(s: State): set<Caller>
  {
    set c | c in s.callers && s.callers[c].Sending?
  }

  lemma SubsetSize(small: set<Caller>, large: set<Caller>)
    requires small <= large
    ensures |small| <= |large|
  {
    assert large == small + (large - small);
  }

  /**
   * In every interleaving the requests in flight never exceed the capacity, the slots taken are the
   * slots held, and no caller is stuck with one: its next step is always enabled.
   */
  lemma SlotsAreBoundedAndReturned(s: State, events: seq<Event>)
    requires Initial(s) && Runs(s, events)
    ensures var reached := After(s, events);
            && |InFlight(reached)| <= reached.slots <= s.capacity
            && (reached.callers == map[] ==> reached.slots == 0)
            && (forall c <- reached.callers :: exists e :: Enabled(reached, e) && MovesOn(e, c))
  {
    RunKeeps(s, events);
    var reached := After(s, events);
    SubsetSize(InFlight(reached), reached.callers.Keys);
    forall c | c in reached.callers
      ensures exists e :: Enabled(reached, e) && MovesOn(e, c)
    {
      var e := match reached.callers[c]
               case Claimed => Decide(c)
               case Sending(_, _) => Report(c, Canceled)
               case _ => Return(c);
      SubsetSize({c}, reached.callers.Keys);
      assert Enabled(reached, e) && MovesOn(e, c);
    }
  }

  predicate MovesOn(e: Event, c: Caller)
  {
    match e
    case Decide(caller) => caller == c
    case Report(caller, _) => caller == c
    case Return(caller) => caller == c
    case _ => false
  }

  // A caller's own steps number at most three, so every claimed slot comes back.
  function StepsLeft(phase: Phase): nat
  {
    match phase
    case Claimed => 3
    case Sending(_, _) => 2
    case _ => 1
  }

  lemma OwnStepsRunOut(s: State, e: Event, c: Caller)
    requires Enabled(s, e) && c in s.callers
    ensures var next := Apply(s, e).callers;
            if MovesOn(e, c) then c in next ==> StepsLeft(next[c]) < StepsLeft(s.callers[c])
            else c in next && next[c] == s.callers[c]
    ensures MovesOn(e, c) && StepsLeft(s.callers[c]) == 1 ==> c !in Apply(s, e).callers
  {
  }

  function OwnSteps(events: seq<Event>, c: Caller): nat
  {
    if events == [] then 0 else Count(MovesOn(events[0], c)) + OwnSteps(events[1..], c)
  }

  function Count(condition: bool): nat { if condition then 1 else 0 }

  predicate HoldsThroughout(s: State, events: seq<Event>, c: Caller)
    requires Runs(s, events)
    decreases events
  {
    c in s.callers && (events != [] ==> HoldsThroughout(Apply(s, events[0]), events[1..], c))
  }

  /**
   * In every run a caller that still holds its slot has taken fewer own steps than its phase left it:
   * after at most three of them the slot is back.
   */
  lemma {:induction false} SlotComesBack(s: State, events: seq<Event>, c: Caller)
    requires Runs(s, events) && HoldsThroughout(s, events, c)
    ensures OwnSteps(events, c) < StepsLeft(s.callers[c]) <= 3
    decreases events
  {
    if events != [] {
      OwnStepsRunOut(s, events[0], c);
      SlotComesBack(Apply(s, events[0]), events[1..], c);
    }
  }

  // ---------------------------------------------------------------------------------------------
  // Probes while the breaker is tripped.

  predicate TrippedThroughout(s: State, events: seq<Event>)
    requires Runs(s, events)
    decreases events
  {
    s.Tripped() && (events != [] ==> TrippedThroughout(Apply(s, events[0]), events[1..]))
  }

  // Whatever else is reported meanwhile, a hold is never shortened while the breaker stays tripped.
  lemma {:induction false} HoldIsKept(s: State, events: seq<Event>)
    requires Inv(s) && Runs(s, events) && TrippedThroughout(s, events)
    ensures After(s, events).Tripped() && s.openUntil <= After(s, events).openUntil
    decreases events
  {
    if events != [] {
      StepKeeps(s, events[0]);
      HoldIsKept(Apply(s, events[0]), events[1..]);
    }
  }

  predicate Holds(s: State, e: Event)
    requires Enabled(s, e)
  {
    || (e.Decide? && s.Tripped() && Admits(s))
    || (e.Report? && e.ending.Failed? && Apply(s, e).Tripped())
  }

  /**
   * Between an admission made while tripped, or the failure that trips the breaker, and the next
   * admission a whole cooldown passes, as long as the breaker stays tripped in between.
   */
  lemma ProbesAreACooldownApart(start: State, before: seq<Event>, first: Event, between: seq<Event>, next: Event)
    requires Initial(start) && Runs(start, before)
    requires var s := After(start, before);
             && Enabled(s, first) && Holds(s, first)
             && Runs(Apply(s, first), between)
             && TrippedThroughout(Apply(s, first), between)
    requires var t := After(Apply(After(start, before), first), between);
             next.Decide? && Enabled(t, next) && Admits(t)
    ensures var s := After(start, before);
            After(Apply(s, first), between).now >= s.now + COOLDOWN
  {
    RunKeeps(start, before);
    var s := After(start, before);
    StepKeeps(s, first);
    HoldIsKept(Apply(s, first), between);
  }

  // ---------------------------------------------------------------------------------------------
  // Failing fast until the probe reports.

  predicate Probing(s: State, c: Caller)
  {
    c in s.callers && s.callers[c].Sending? && s.callers[c].probe
  }

  // While a probe is in flight every other caller that decides is denied.
  ghost predicate FailsFast(s: State)
  {
    forall c, d :: Probing(s, c) && Enabled(s, Decide(d)) ==> InPhase(Apply(s, Decide(d)), d, Denied)
  }

  // Every request in flight was admitted at most `limit` ago.
  predicate InTime(s: State, limit: nat)
  {
    forall c <- s.callers :: s.callers[c].Sending? ==> s.now <= s.callers[c].since + limit
  }

  // No send lasts longer than `limit`.
  predicate LimitedRun(s: State, events: seq<Event>, limit: nat)
    requires Runs(s, events)
    decreases events
  {
    InTime(s, limit) && (events != [] ==> LimitedRun(Apply(s, events[0]), events[1..], limit))
  }

  // While tripped, the breaker holds for a cooldown beyond every admission in flight.
  predicate HeldBeyond(s: State)
  {
    forall c <- s.callers :: s.callers[c].Sending? ==>
      s.callers[c].since <= s.now && (s.Tripped() ==> s.callers[c].since + COOLDOWN <= s.openUntil)
  }

  predicate Flying(s: State, c: Caller)
  {
    c in s.callers && s.callers[c].Sending?
  }

  // A probe in flight means a tripped breaker, and nothing else is in flight.
  ghost predicate LoneProbe(s: State)
  {
    && (forall c :: Probing(s, c) ==> s.Tripped())
    && (forall c, d :: Probing(s, c) && Flying(s, d) ==> c == d)
  }

  lemma HeldBeyondKeeps(s: State, e: Event)
    requires HeldBeyond(s) && Enabled(s, e) && s.openUntil <= s.now + COOLDOWN
    ensures HeldBeyond(Apply(s, e))
  {
    var t := Apply(s, e);
    forall c | c in t.callers && t.callers[c].Sending?
      ensures t.callers[c].since <= t.now && (t.Tripped() ==> t.callers[c].since + COOLDOWN <= t.openUntil)
    {
    }
  }

  // A probe is admitted only when nothing is in flight.
  lemma ProbeFindsNothing(s: State, limit: nat, d: Caller)
    requires HeldBeyond(s) && InTime(s, limit) && limit < COOLDOWN
    requires d in s.callers && s.callers[d].Sending? && s.Tripped()
    ensures !Admits(s)
  {
    assert s.now <= s.callers[d].since + limit;
  }

  lemma LoneProbeKeeps(s: State, e: Event, limit: nat)
    requires HeldBeyond(s) && LoneProbe(s) && InTime(s, limit) && limit < COOLDOWN && Enabled(s, e)
    ensures LoneProbe(Apply(s, e))
  {
    var t := Apply(s, e);
    forall f | Flying(s, f)
      ensures s.Tripped() ==> !Admits(s)
    {
      if s.Tripped() {
        ProbeFindsNothing(s, limit, f);
      }
    }
    assert e.Report? ==> Flying(s, e.caller);
    forall c | Flying(t, c)
      ensures (Flying(s, c) && t.callers[c] == s.callers[c]) || (e == Decide(c) && Admits(s))
      ensures Probing(t, c) ==> Probing(s, c) || (e == Decide(c) && Admits(s) && s.Tripped())
      ensures e.Report? ==> c != e.caller
    {
    }
    forall c | Probing(t, c)
      ensures Flying(t, c) && t.Tripped()
    {
    }
    forall c, d | Probing(t, c) && Flying(t, d)
      ensures c == d
    {
    }
  }

  lemma {:induction false} LoneProbeHolds(s: State, events: seq<Event>, limit: nat)
    requires Inv(s) && HeldBeyond(s) && LoneProbe(s) && limit < COOLDOWN
    requires Runs(s, events) && LimitedRun(s, events, limit)
    ensures HeldBeyond(After(s, events)) && LoneProbe(After(s, events)) && InTime(After(s, events), limit)
    decreases events
  {
    if events != [] {
      StepKeeps(s, events[0]);
      HeldBeyondKeeps(s, events[0]);
      LoneProbeKeeps(s, events[0], limit);
      LoneProbeHolds(Apply(s, events[0]), events[1..], limit);
    }
  }

  /**
   * When every send ends before a cooldown has passed, then in every reachable state a probe is the only
   * request in flight and every other caller is denied until it reports.
   */
  lemma PromptSendsFailFast(s: State, events: seq<Event>, limit: nat)
    requires Initial(s) && Runs(s, events) && LimitedRun(s, events, limit) && limit < COOLDOWN
    ensures LoneProbe(After(s, events)) && FailsFast(After(s, events))
  {
    LoneProbeHolds(s, events, limit);
    var reached := After(s, events);
    forall c, d | Probing(reached, c) && Enabled(reached, Decide(d))
      ensures InPhase(Apply(reached, Decide(d)), d, Denied)
    {
      ProbeFindsNothing(reached, limit, c);
    }
  }

  // With a single slot a probe leaves none to claim.
  lemma SingleSlotFailsFast(s: State, events: seq<Event>)
    requires Initial(s) && Runs(s, events) && s.capacity < 2
    ensures FailsFast(After(s, events))
  {
    RunKeeps(s, events);
    var reached := After(s, events);
    forall c, d | Probing(reached, c)
      ensures !Enabled(reached, Decide(d))
    {
      assert reached.callers.Keys == {c} + (reached.callers.Keys - {c});
      assert d in reached.callers ==> d == c || d in reached.callers.Keys - {c};
    }
  }

  // ---------------------------------------------------------------------------------------------
  // What a run's own events say about the next decision.

  // The failures reported since the last answer.
  function FailuresSince(events: seq<Event>): nat
  {
    if events == [] then 0 else
      var before, last := FailuresSince(events[..|events| - 1]), events[|events| - 1];
      if last.Report? && last.ending.Failed? then before + 1
      else if last.Report? && last.ending.Answered? then 0
      else before
  }

  lemma {:induction false} RunsPrefix(s: State, events: seq<Event>, n: nat)
    requires Runs(s, events) && n <= |events|
    ensures Runs(s, events[..n]) && Runs(After(s, events[..n]), events[n..])
    ensures After(s, events) == After(After(s, events[..n]), events[n..])
    decreases n
  {
    if n == 0 {
      assert events[..0] == [] && events[0..] == events;
    } else {
      assert events[..n][0] == events[0] && events[..n][1..] == events[1..][..n - 1];
      assert events[1..][n - 1..] == events[n..];
      RunsPrefix(Apply(s, events[0]), events[1..], n - 1);
    }
  }

  // The last step of a run, from the state before it.
  lemma LastStep(s: State, events: seq<Event>)
    requires Runs(s, events) && events != []
    ensures var n := |events| - 1;
            && Runs(s, events[..n]) && Enabled(After(s, events[..n]), events[n])
            && After(s, events) == Apply(After(s, events[..n]), events[n])
  {
    var n := |events| - 1;
    RunsPrefix(s, events, n);
    assert events[n..] == [events[n]];
    assert [events[n]][1..] == [];
  }

  lemma {:induction false} FailuresAreCounted(s: State, events: seq<Event>)
    requires Initial(s) && Runs(s, events)
    ensures After(s, events).failures == FailuresSince(events)
    decreases |events|
  {
    if events != [] {
      LastStep(s, events);
      FailuresAreCounted(s, events[..|events| - 1]);
    }
  }

  // The i-th step of the run starts a hold: a third failure since the last answer, or a caller let through in spite
  // of three.
  ghost predicate StartsHold(s: State, events: seq<Event>, i: nat)
  {
    && i < |events| && Runs(s, events[..i + 1])
    && (|| (events[i].Report? && events[i].ending.Failed? && FailuresSince(events[..i + 1]) >= 3)
        || (&& events[i].Decide? && FailuresSince(events[..i]) >= 3
            && Flying(After(s, events[..i + 1]), events[i].caller)))
  }

  // The time at which the i-th step was taken.
  ghost function TimeOf(s: State, events: seq<Event>, i: nat): int
    requires i < |events| && Runs(s, events[..i + 1])
  {
    After(s, events[..i + 1]).now
  }

  // A hold that has not passed.
  ghost predicate HeldBy(s: State, events: seq<Event>, i: nat, until: int)
  {
    StartsHold(s, events, i) && until < TimeOf(s, events, i) + 30_000_000_000
  }

  lemma EarlierHold(s: State, events: seq<Event>, i: nat, until: int)
    requires events != [] && i < |events| - 1
    ensures HeldBy(s, events, i, until) <==> HeldBy(s, events[..|events| - 1], i, until)
  {
    var front := events[..|events| - 1];
    assert front[..i + 1] == events[..i + 1] && front[..i] == events[..i] && front[i] == events[i];
  }

  lemma LatestHold(s: State, events: seq<Event>, until: int)
    requires Initial(s) && Runs(s, events) && events != []
    ensures Runs(s, events[..|events| - 1])
    ensures var before, after := After(s, events[..|events| - 1]), After(s, events);
            && (after.openUntil != before.openUntil ==> after.openUntil == after.now + COOLDOWN)
            && (HeldBy(s, events, |events| - 1, until) <==>
                  StartsHold(s, events, |events| - 1) && until < after.now + COOLDOWN)
            && (StartsHold(s, events, |events| - 1) ==> after.openUntil == after.now + COOLDOWN)
            && (!StartsHold(s, events, |events| - 1) ==> after.openUntil == before.openUntil)
  {
    var n := |events| - 1;
    LastStep(s, events);
    FailuresAreCounted(s, events);
    FailuresAreCounted(s, events[..n]);
    assert events[..n + 1] == events;
  }

  lemma {:induction false} HeldUntilIff(s: State, events: seq<Event>, until: int)
    requires Initial(s) && Runs(s, events) && until >= 0
    ensures until < After(s, events).openUntil <==> exists i: nat :: HeldBy(s, events, i, until)
    decreases |events|
  {
    if events != [] {
      var n := |events| - 1;
      LastStep(s, events);
      HeldUntilIff(s, events[..n], until);
      LatestHold(s, events, until);
      RunKeeps(s, events[..n]);
      RunKeeps(s, events);
      forall i: nat | i < n
        ensures HeldBy(s, events, i, until) <==> HeldBy(s, events[..n], i, until)
      {
        EarlierHold(s, events, i, until);
      }
      if until < After(s, events[..n]).openUntil {
        var i: nat :| HeldBy(s, events[..n], i, until);
        assert HeldBy(s, events, i, until);
      }
    }
  }

  /**
   * Over every run, a caller is turned away exactly when three failures were reported since the last answer and
   * some hold, thirty seconds from the failure that tripped the breaker or from the last probe, has not passed.
   */
  lemma DeniedIff(s: State, events: seq<Event>, c: Caller)
    requires Initial(s) && Runs(s, events) && Enabled(After(s, events), Decide(c))
    ensures var reached := After(s, events);
            InPhase(Apply(reached, Decide(c)), c, Denied) <==>
              FailuresSince(events) >= 3 && exists i: nat :: HeldBy(s, events, i, reached.now)
  {
    RunKeeps(s, events);
    FailuresAreCounted(s, events);
    HeldUntilIff(s, events, After(s, events).now);
  }

  predicate NoFailure(events: seq<Event>)
  {
    forall i :: 0 <= i < |events| ==> !(events[i].Report? && events[i].ending.Failed?)
  }

  lemma {:induction false} NothingFailedSince(before: seq<Event>, later: seq<Event>)
    requires FailuresSince(before) == 0 && NoFailure(later)
    ensures FailuresSince(before + later) == 0
    decreases |later|
  {
    if later == [] {
      assert before + later == before;
    } else {
      var n := |later| - 1;
      assert (before + later)[..|before| + n] == before + later[..n];
      NothingFailedSince(before, later[..n]);
    }
  }

  // After an answer, and as long as nothing fails, everyone who decides is let through.
  lemma AnswerLetsThrough(s: State, before: seq<Event>, answered: Caller, later: seq<Event>, c: Caller)
    requires Initial(s) && Runs(s, before + [Report(answered, Answered)] + later) && NoFailure(later)
    requires Enabled(After(s, before + [Report(answered, Answered)] + later), Decide(c))
    ensures var reached := After(s, before + [Report(answered, Answered)] + later);
            InPhase(Apply(reached, Decide(c)), c, Sending(reached.now, false))
  {
    var events := before + [Report(answered, Answered)];
    assert FailuresSince(events) == 0;
    NothingFailedSince(events, later);
    FailuresAreCounted(s, events + later);
  }

  // ---------------------------------------------------------------------------------------------
  // A send that lasts a cooldown.

  lemma {:induction false} RunsJoin(s: State, first: seq<Event>, rest: seq<Event>)
    requires Runs(s, first) && Runs(After(s, first), rest)
    ensures Runs(s, first + rest) && After(s, first + rest) == After(After(s, first), rest)
    decreases first
  {
    if first == [] {
      assert first + rest == rest;
    } else {
      assert (first + rest)[0] == first[0] && (first + rest)[1..] == first[1..] + rest;
      RunsJoin(Apply(s, first[0]), first[1..], rest);
    }
  }

  lemma {:induction false} LimitedRunsJoin(s: State, first: seq<Event>, rest: seq<Event>, limit: nat)
    requires Runs(s, first) && Runs(After(s, first), rest)
    requires LimitedRun(s, first, limit) && LimitedRun(After(s, first), rest, limit)
    ensures Runs(s, first + rest) && LimitedRun(s, first + rest, limit)
    decreases first
  {
    RunsJoin(s, first, rest);
    if first == [] {
      assert first + rest == rest;
    } else {
      assert (first + rest)[0] == first[0] && (first + rest)[1..] == first[1..] + rest;
      LimitedRunsJoin(Apply(s, first[0]), first[1..], rest, limit);
    }
  }

  predicate NoTicks(events: seq<Event>)
  {
    forall i :: 0 <= i < |events| ==> !events[i].Tick?
  }

  // Without the passing of time nothing grows late.
  lemma {:induction false} StillRunIsLimited(s: State, events: seq<Event>, limit: nat)
    requires Runs(s, events) && NoTicks(events) && InTime(s, limit)
    ensures LimitedRun(s, events, limit)
    decreases events
  {
    if events != [] {
      assert InTime(Apply(s, events[0]), limit);
      StillRunIsLimited(Apply(s, events[0]), events[1..], limit);
    }
  }

  lemma RunOfOne(s: State, e: Event)
    requires Enabled(s, e)
    ensures Runs(s, [e]) && After(s, [e]) == Apply(s, e)
  {
    var rest: seq<Event> := [];
    assert [e][0] == e && [e][1..] == rest;
    assert Runs(Apply(s, e), rest) && After(Apply(s, e), rest) == Apply(s, e);
  }

  lemma LimitedTick(s: State, elapsed: nat, limit: nat)
    requires InTime(s, limit) && InTime(s.(now := s.now + elapsed), limit)
    ensures Runs(s, [Tick(elapsed)]) && LimitedRun(s, [Tick(elapsed)], limit)
    ensures After(s, [Tick(elapsed)]) == s.(now := s.now + elapsed)
  {
    RunOfOne(s, Tick(elapsed));
    var rest: seq<Event> := [];
    assert [Tick(elapsed)][0] == Tick(elapsed) && [Tick(elapsed)][1..] == rest;
    assert LimitedRun(s.(now := s.now + elapsed), rest, limit);
  }

  lemma RunOfTwo(s: State, e: Event, f: Event)
    requires Enabled(s, e) && Enabled(Apply(s, e), f)
    ensures Runs(s, [e, f]) && After(s, [e, f]) == Apply(Apply(s, e), f)
  {
    assert [e, f][0] == e && [e, f][1..] == [f];
    RunOfOne(Apply(s, e), f);
  }

  // A caller is admitted.
  lemma Admission(s: State, c: Caller)
    requires c !in s.callers && s.slots < s.capacity && Admits(s)
    ensures Runs(s, [Claim(c), Decide(c)])
    ensures After(s, [Claim(c), Decide(c)]) ==
              s.(slots := s.slots + 1, callers := s.callers[c := Sending(s.now, s.Tripped())],
                 openUntil := if s.Tripped() then s.now + COOLDOWN else s.openUntil)
  {
    RunOfTwo(s, Claim(c), Decide(c));
    assert s.callers[c := Claimed][c := Sending(s.now, s.Tripped())] == s.callers[c := Sending(s.now, s.Tripped())];
  }

  // A caller in flight fails and gives its slot back.
  lemma FailedReturn(s: State, c: Caller)
    requires c in s.callers && s.callers[c].Sending? && s.slots > 0
    ensures Runs(s, [Report(c, Failed), Return(c)])
    ensures After(s, [Report(c, Failed), Return(c)]) ==
              Recorded(s, Failed).(slots := s.slots - 1, callers := s.callers - {c})
  {
    RunOfTwo(s, Report(c, Failed), Return(c));
    assert s.callers[c := Reported] - {c} == s.callers - {c};
  }

  function FailedCall(c: Caller): seq<Event>
  {
    [Claim(c), Decide(c)] + [Report(c, Failed), Return(c)]
  }

  // A caller that is admitted while the breaker is closed and fails.
  lemma FailingCall(s: State, c: Caller)
    requires c !in s.callers && s.slots < s.capacity && !s.Tripped()
    ensures Runs(s, FailedCall(c)) && After(s, FailedCall(c)) == Recorded(s, Failed)
  {
    Admission(s, c);
    FailedReturn(After(s, [Claim(c), Decide(c)]), c);
    RunsJoin(s, [Claim(c), Decide(c)], [Report(c, Failed), Return(c)]);
    assert s.callers[c := Sending(s.now, false)] - {c} == s.callers;
  }

  lemma {:induction false} ThreeFailuresTrip(s: State, c: Caller, left: nat) returns (events: seq<Event>)
    requires c !in s.callers && s.slots < s.capacity && s.failures + left == THRESHOLD && left > 0
    ensures Runs(s, events) && NoTicks(events)
    ensures After(s, events) == s.(failures := THRESHOLD, openUntil := s.now + COOLDOWN)
    decreases left
  {
    FailingCall(s, c);
    events := FailedCall(c);
    if left > 1 {
      var rest := ThreeFailuresTrip(After(s, FailedCall(c)), c, left - 1);
      RunsJoin(s, FailedCall(c), rest);
      events := FailedCall(c) + rest;
    }
  }

  // Three failures trip the breaker and its cooldown passes.
  lemma TrippedAndOver(s: State) returns (events: seq<Event>)
    requires Initial(s) && s.capacity >= 2
    ensures Runs(s, events) && LimitedRun(s, events, COOLDOWN)
    ensures After(s, events) ==
              s.(failures := THRESHOLD, openUntil := s.now + COOLDOWN, now := s.now + COOLDOWN)
  {
    var trip := ThreeFailuresTrip(s, 1, 3);
    StillRunIsLimited(s, trip, COOLDOWN);
    LimitedTick(After(s, trip), COOLDOWN, COOLDOWN);
    RunsJoin(s, trip, [Tick(COOLDOWN)]);
    LimitedRunsJoin(s, trip, [Tick(COOLDOWN)], COOLDOWN);
    events := trip + [Tick(COOLDOWN)];
  }

  // A caller probes, and the cooldown passes again before it reports.
  lemma ProbeThenWait(s: State, c: Caller) returns (events: seq<Event>)
    requires s.callers == map[] && s.slots < s.capacity && s.Tripped() && s.now >= s.openUntil
    ensures Runs(s, events) && LimitedRun(s, events, COOLDOWN)
    ensures After(s, events) ==
              s.(slots := s.slots + 1, callers := map[c := Sending(s.now, true)],
                 openUntil := s.now + COOLDOWN, now := s.now + COOLDOWN)
  {
    Admission(s, c);
    StillRunIsLimited(s, [Claim(c), Decide(c)], COOLDOWN);
    var probing := After(s, [Claim(c), Decide(c)]);
    assert probing.callers == map[c := Sending(s.now, true)];
    LimitedTick(probing, COOLDOWN, COOLDOWN);
    RunsJoin(s, [Claim(c), Decide(c)], [Tick(COOLDOWN)]);
    LimitedRunsJoin(s, [Claim(c), Decide(c)], [Tick(COOLDOWN)], COOLDOWN);
    events := [Claim(c), Decide(c)] + [Tick(COOLDOWN)];
  }

  /**
   * A probe that lasts a cooldown is joined by a second one: three failures trip the breaker, and two
   * callers probe it a cooldown apart.
   */
  lemma SlowProbeIsJoined(s: State) returns (events: seq<Event>)
    requires Initial(s) && s.capacity >= 2
    ensures Runs(s, events) && LimitedRun(s, events, COOLDOWN)
    ensures var reached := After(s, events);
            && Probing(reached, 1) && Enabled(reached, Decide(2))
            && Probing(Apply(reached, Decide(2)), 1) && Probing(Apply(reached, Decide(2)), 2)
  {
    var trip := TrippedAndOver(s);
    var wait := ProbeThenWait(After(s, trip), 1);
    RunsJoin(s, trip, wait);
    LimitedRunsJoin(s, trip, wait, COOLDOWN);
    var waiting := After(s, trip + wait);
    RunOfOne(waiting, Claim(2));
    StillRunIsLimited(waiting, [Claim(2)], COOLDOWN);
    RunsJoin(s, trip + wait, [Claim(2)]);
    LimitedRunsJoin(s, trip + wait, [Claim(2)], COOLDOWN);
    events := trip + wait + [Claim(2)];
  }

  lemma {:induction false} LongerLimit(s: State, events: seq<Event>, short: nat, long: nat)
    requires Runs(s, events) && LimitedRun(s, events, short) && short <= long
    ensures LimitedRun(s, events, long)
    decreases events
  {
    if events != [] {
      LongerLimit(Apply(s, events[0]), events[1..], short, long);
    }
  }

  // ---------------------------------------------------------------------------------------------
  // Exactly when callers fail fast.

  // A client with so many slots, whose transport ends every send within `limit`.
  ghost predicate AlwaysFailsFast(capacity: nat, limit: nat)
  {
    forall s, events ::
      Initial(s) && s.capacity == capacity && Runs(s, events) && LimitedRun(s, events, limit) ==>
        FailsFast(After(s, events))
  }

  /**
   * Whatever callers do, each of them fails fast while a probe is in flight, exactly when the transport's
   * time limit is shorter than the cooldown or there is a single slot.
   */
  lemma FailsFastIff(capacity: nat, limit: nat)
    ensures AlwaysFailsFast(capacity, limit) <==> limit < COOLDOWN || capacity < 2
  {
    if limit < COOLDOWN || capacity < 2 {
      forall s, events | Initial(s) && s.capacity == capacity && Runs(s, events) && LimitedRun(s, events, limit)
        ensures FailsFast(After(s, events))
      {
        if limit < COOLDOWN {
          PromptSendsFailFast(s, events, limit);
        } else {
          SingleSlotFailsFast(s, events);
        }
      }
    } else {
      var s := State(capacity, 0, 0, 0, 0, map[]);
      var events := SlowProbeIsJoined(s);
      LongerLimit(s, events, COOLDOWN, limit);
      assert !FailsFast(After(s, events));
    }
  }

  const HTTP_TIMEOUT := 5_000_000_000

  /**
   * The client built without a transport of the caller's own always fails fast.
   */
  lemma DefaultClientFailsFast(capacity: nat)
    ensures AlwaysFailsFast(capacity, HTTP_TIMEOUT)
  {
    FailsFastIff(capacity, HTTP_TIMEOUT);
  }
}
