/**
 * Replaying one route's persisted events into its projection.
 *
 * The replay walks the ledger once; here it is tied to `Run` over the events at or before the horizon.
 */
module StatusReplay {
  import opened RouteStatus
  import opened RouteHistory

  datatype Persisted = Persisted(eventId: int, event: Event)

  datatype Input = Input(
    configDigest: nat,
    routeId: string,
    horizon: int,
    events: seq<Persisted>,
    complete: bool)

  datatype Coverage = Coverage(
    earliest: int,
    latest: int,
    seen: nat,
    applied: nat,
    ignored: nat,
    skipped: nat)

  datatype Replay = Replay(status: Status, present: bool, coverage: Coverage)

  datatype Fault = BadInput | BadOrder | BadKey | BadEvent

  datatype Outcome = Replayed(replay: Replay) | Failed(fault: Fault)

  predicate DocumentedCreditCode(code: string)
  {
    code in [
      "insufficient_quota", "billing_hard_limit", "payment_required", "credit_balance_exhausted",
      "organization_spend_limit_exceeded", "project_spend_limit_exceeded",
      "organization_usage_limit_exceeded", "enforced_spend_limit_reached",
      "quota_low", "billing_warning", "quota_restored", "billing_restored"]
  }

  predicate IsSpace(c: char)
  {
    || '\t' <= c <= '\r' || c == ' ' || c == '\U{85}' || c == '\U{A0}' || c == '\U{1680}'
    || '\U{2000}' <= c <= '\U{200A}' || c == '\U{2028}' || c == '\U{2029}' || c == '\U{202F}'
    || c == '\U{205F}' || c == '\U{3000}'
  }

  // The length of the UTF-8 encoding.
  function ByteLength(s: string): nat
  {
    if s == "" then 0 else
      (if s[0] < '\U{80}' then 1 else if s[0] < '\U{800}' then 2 else if s[0] < '\U{10000}' then 3 else 4)
      + ByteLength(s[1..])
  }

  predicate SafeIdentifier(value: string)
  {
    && value != "" && ByteLength(value) <= 256
    && !IsSpace(value[0]) && !IsSpace(value[|value| - 1])
    && '\0' !in value
  }

  predicate SafeCode(value: string)
  {
    ByteLength(value) <= 128 && forall c <- value :: '!' <= c <= '~'
  }

  predicate ReportsIncident(event: Event)
  {
    event.credit.CreditExhausted? || event.billing.BillingIssue?
  }

  predicate ValidEvent(event: Event)
  {
    && event.eventDigest != 0
    && event.configDigest != 0 && event.identity.account != 0 && event.evidenceDigest != 0
    && SafeIdentifier(event.routeId) && SafeIdentifier(event.identity.endpointId)
    && SafeIdentifier(event.identity.provider) && SafeIdentifier(event.endpointFamily)
    && SafeIdentifier(event.configEpoch)
    && (event.identity.model != "" ==> SafeIdentifier(event.identity.model))
    && (event.identity.providerTier != "" ==> SafeIdentifier(event.identity.providerTier))
    && !event.source.OtherSource? && !event.availability.NoAvailability?
    && !event.credit.NoCredit? && !event.billing.NoBilling?
    && (ReportsIncident(event) && !event.source.Operator? ==> DocumentedCreditCode(event.providerCode))
    && (ReportsIncident(event) && event.source.Operator? ==> event.safeErrorCode != "" || event.providerCode != "")
    && event.observedAt != 0 && event.expiresAt != 0 && event.observedAt < event.expiresAt
    && (event.safeErrorCode != "" ==> SafeCode(event.safeErrorCode))
    && (event.providerCode != "" ==> SafeCode(event.providerCode))
  }

  predicate ValidHeader(input: Input)
  {
    input.configDigest != 0 && input.routeId != "" && input.horizon != 0 && SafeIdentifier(input.routeId)
  }

  predicate InOrder(events: seq<Persisted>, index: nat)
    requires index < |events|
  {
    events[index].eventId > 0 && (index > 0 ==> events[index - 1].eventId < events[index].eventId)
  }

  predicate KeyMatches(input: Input, index: nat)
    requires index < |input.events|
  {
    var event := input.events[index].event;
    event.configDigest == input.configDigest && event.routeId == input.routeId
  }

  predicate Sound(input: Input, index: nat)
    requires index < |input.events|
  {
    InOrder(input.events, index) && KeyMatches(input, index) && ValidEvent(input.events[index].event)
  }

  predicate SoundUpTo(input: Input, length: nat)
    requires length <= |input.events|
  {
    forall index: nat :: index < length ==> Sound(input, index)
  }

  // What is wrong with the ledger at an index, checked in this order.
  predicate FaultAt(input: Input, index: nat, fault: Fault)
    requires index < |input.events|
  {
    if !InOrder(input.events, index) then fault == BadOrder
    else if !KeyMatches(input, index) then fault == BadKey
    else fault == BadEvent && !ValidEvent(input.events[index].event)
  }

  // The entries before some index are sound and this is what is wrong with the entry there.
  predicate FirstFault(input: Input, fault: Fault)
  {
    exists index: nat | index < |input.events| :: SoundUpTo(input, index) && FaultAt(input, index, fault)
  }

  // The events a replay considers, in ledger order.
  function Visible(events: seq<Persisted>, horizon: int): seq<Event>
  {
    if events == [] then [] else
      Visible(events[..|events| - 1], horizon) +
      (if events[|events| - 1].event.observedAt <= horizon then [events[|events| - 1].event] else [])
  }

  function AppliedCount(status: Status, events: seq<Event>): nat
    decreases events
  {
    if events == [] then 0 else
      (if Rejects(status, events[0]) then 0 else 1) + AppliedCount(Applied(status, events[0]), events[1..])
  }

  lemma {:induction false} AppliedCountConcat(status: Status, first: seq<Event>, rest: seq<Event>)
    ensures AppliedCount(status, first + rest) == AppliedCount(status, first) + AppliedCount(Run(status, first), rest)
    decreases first
  {
    if first == [] {
      assert first + rest == rest;
    } else {
      assert (first + rest)[0] == first[0] && (first + rest)[1..] == first[1..] + rest;
      AppliedCountConcat(Applied(status, first[0]), first[1..], rest);
    }
  }

  lemma {:induction false} VisibleConcat(first: seq<Persisted>, rest: seq<Persisted>, horizon: int)
    ensures Visible(first + rest, horizon) == Visible(first, horizon) + Visible(rest, horizon)
    decreases rest
  {
    if rest == [] {
      assert first + rest == first;
    } else {
      var shorter := rest[..|rest| - 1];
      assert (first + rest)[..|first + rest| - 1] == first + shorter;
      VisibleConcat(first, shorter, horizon);
    }
  }

  // The oldest and newest of the observation times; 0 when there are none.
  predicate Spans(events: seq<Event>, earliest: int, latest: int)
  {
    && (events == [] ==> earliest == 0 && latest == 0)
    && (forall event <- events :: earliest <= event.observedAt <= latest)
    && (events != [] ==> exists event <- events :: event.observedAt == earliest)
    && (events != [] ==> exists event <- events :: event.observedAt == latest)
  }

  // What a replay of these visible events must report.
  predicate Reports(replay: Replay, visible: seq<Event>, total: nat)
  {
    && replay.status == Run(ZERO, visible)
    && replay.coverage.applied == AppliedCount(ZERO, visible)
    && replay.coverage.applied + replay.coverage.ignored == |visible|
    && replay.coverage.skipped + |visible| == total
    && replay.coverage.seen == total
    && replay.present == (replay.coverage.applied > 0)
    && Spans(visible, replay.coverage.earliest, replay.coverage.latest)
  }

  lemma StepKeepsReports(replay: Replay, visible: seq<Event>, total: nat, event: Event)
    requires Reports(replay, visible, total) && event.observedAt != 0
    requires forall earlier <- visible :: earlier.observedAt != 0
    ensures var taken := if Rejects(replay.status, event) then 0 else 1;
            Reports(
              Replay(
                Applied(replay.status, event),
                replay.present || taken == 1,
                Coverage(
                  (if visible == [] || event.observedAt < replay.coverage.earliest then event.observedAt
                   else replay.coverage.earliest),
                  (if visible == [] || event.observedAt > replay.coverage.latest then event.observedAt
                   else replay.coverage.latest),
                  total + 1, replay.coverage.applied + taken, replay.coverage.ignored + 1 - taken,
                  replay.coverage.skipped)),
              visible + [event], total + 1)
  {
    RunConcat(ZERO, visible, [event]);
    AppliedCountConcat(ZERO, visible, [event]);
    assert [event][1..] == [];
    var all := visible + [event];
    assert all[|visible|] == event;
    forall earlier | earlier in visible
      ensures earlier in all
    {
    }
  }

  // The replay so far, over the entries walked so far.
  predicate Tracks(replay: Replay, walked: seq<Persisted>, horizon: int)
  {
    && Reports(replay, Visible(walked, horizon), |walked|)
    && (forall earlier <- Visible(walked, horizon) :: earlier.observedAt != 0)
  }

  datatype Check = Good | Bad(fault: Fault)

  // Checks one ledger entry before it is considered at all.
  method CheckEntry(input: Input, index: nat, previousId: int) returns (check: Check)
    requires index < |input.events|
    requires index > 0 ==> previousId == input.events[index - 1].eventId
    ensures check.Good? <==> Sound(input, index)
    ensures check.Bad? ==> FaultAt(input, index, check.fault) && check.fault != BadInput
  {
    var persisted := input.events[index];
    if persisted.eventId <= 0 || (index > 0 && persisted.eventId <= previousId) {
      return Bad(BadOrder);
    }
    if persisted.event.configDigest != input.configDigest || persisted.event.routeId != input.routeId {
      return Bad(BadKey);
    }
    if !ValidEvent(persisted.event) {
      return Bad(BadEvent);
    }
    return Good;
  }

  // Considers one checked entry: past the horizon it is skipped, otherwise it is applied and counted.
  method Consider(projection: RouteProjection, present: bool, coverage: Coverage, entry: Persisted, horizon: int,
                  ghost walked: seq<Persisted>)
    returns (p: bool, c: Coverage)
    requires Tracks(Replay(projection.status, present, coverage), walked, horizon) && entry.event.observedAt != 0
    modifies projection
    ensures Tracks(Replay(projection.status, p, c), walked + [entry], horizon)
  {
    hide Run, AppliedCount, Applied, Rejects;
    var event := entry.event;
    assert (walked + [entry])[..|walked|] == walked;
    p, c := present, coverage.(seen := coverage.seen + 1);
    if event.observedAt > horizon {
      assert Visible(walked + [entry], horizon) == Visible(walked, horizon);
      c := c.(skipped := c.skipped + 1);
      return;
    }
    assert Visible(walked + [entry], horizon) == Visible(walked, horizon) + [event];
    StepKeepsReports(Replay(projection.status, present, coverage), Visible(walked, horizon), |walked|, event);
    if c.earliest == 0 || event.observedAt < c.earliest {
      c := c.(earliest := event.observedAt);
    }
    if c.latest == 0 || event.observedAt > c.latest {
      c := c.(latest := event.observedAt);
    }
    var applied := projection.Apply(event);
    if applied {
      c := c.(applied := c.applied + 1);
      p := true;
    } else {
      c := c.(ignored := c.ignored + 1);
    }
  }

  lemma FaultIsNotSound(input: Input, index: nat, fault: Fault)
    requires index < |input.events| && SoundUpTo(input, index) && FaultAt(input, index, fault)
    ensures FirstFault(input, fault) && !SoundUpTo(input, |input.events|)
  {
    assert !Sound(input, index);
  }

  lemma WalkedAll(events: seq<Persisted>)
    ensures events[..|events|] == events
  {
  }

  lemma WalkedOne(events: seq<Persisted>, index: nat)
    requires index < |events|
    ensures events[..index + 1] == events[..index] + [events[index]]
  {
  }

  // Before the first entry.
  lemma NothingWalked(input: Input)
    ensures SoundUpTo(input, 0)
    ensures Tracks(Replay(ZERO, false, Coverage(0, 0, 0, 0, 0, 0)), input.events[..0], input.horizon)
  {
    assert input.events[..0] == [];
  }

  lemma SoundOneMore(input: Input, index: nat)
    requires index < |input.events| && SoundUpTo(input, index) && Sound(input, index)
    ensures SoundUpTo(input, index + 1) && input.events[index].event.observedAt != 0
  {
  }

  // Walks the ledger once.
  method Walk(input: Input) returns (check: Check, replay: Replay)
    ensures check.Good? ==> SoundUpTo(input, |input.events|) && Tracks(replay, input.events, input.horizon)
    ensures check.Bad? ==> FirstFault(input, check.fault) && !SoundUpTo(input, |input.events|)
    ensures check.Bad? ==> check.fault != BadInput
  {
    hide Sound, SoundUpTo, Tracks, FirstFault, FaultAt;
    NothingWalked(input);
    var projection := new RouteProjection();
    var present := false;
    var coverage := Coverage(0, 0, 0, 0, 0, 0);
    var previousId := 0;
    for index := 0 to |input.events|
      invariant SoundUpTo(input, index)
      invariant fresh(projection)
      invariant index > 0 ==> previousId == input.events[index - 1].eventId
      invariant Tracks(Replay(projection.status, present, coverage), input.events[..index], input.horizon)
    {
      replay := Replay(projection.status, present, coverage);
      check := CheckEntry(input, index, previousId);
      if check.Bad? {
        FaultIsNotSound(input, index, check.fault);
        return;
      }
      var entry := input.events[index];
      previousId := entry.eventId;
      SoundOneMore(input, index);
      WalkedOne(input.events, index);
      present, coverage := Consider(projection, present, coverage, entry, input.horizon, input.events[..index]);
    }
    WalkedAll(input.events);
    return Good, Replay(projection.status, present, coverage);
  }

  /**
   * A replay succeeds exactly on a well-formed input, and then equals applying the events at or before
   * the horizon one after another; otherwise it names what is wrong with the first bad event.
   */
  method ReplayRouteStatus(input: Input) returns (outcome: Outcome)
    ensures outcome.Replayed? <==> ValidHeader(input) && SoundUpTo(input, |input.events|)
    ensures outcome.Replayed? ==> Reports(outcome.replay, Visible(input.events, input.horizon), |input.events|)
    ensures outcome.Failed? && outcome.fault == BadInput <==> !ValidHeader(input)
    ensures outcome.Failed? && ValidHeader(input) ==> FirstFault(input, outcome.fault)
  {
    if input.configDigest == 0 || input.routeId == "" || input.horizon == 0 || !SafeIdentifier(input.routeId) {
      return Failed(BadInput);
    }
    var check, replay := Walk(input);
    return if check.Bad? then Failed(check.fault) else Replayed(replay);
  }

  // Replaying a ledger is replaying its first part and then continuing with the rest.
  lemma ReplayComposes(first: seq<Persisted>, rest: seq<Persisted>, horizon: int)
    ensures Run(ZERO, Visible(first + rest, horizon)) ==
              Run(Run(ZERO, Visible(first, horizon)), Visible(rest, horizon))
    ensures AppliedCount(ZERO, Visible(first + rest, horizon)) ==
              AppliedCount(ZERO, Visible(first, horizon)) +
              AppliedCount(Run(ZERO, Visible(first, horizon)), Visible(rest, horizon))
  {
    VisibleConcat(first, rest, horizon);
    RunConcat(ZERO, Visible(first, horizon), Visible(rest, horizon));
    AppliedCountConcat(ZERO, Visible(first, horizon), Visible(rest, horizon));
  }

  lemma {:induction false} VisibleIsPast(events: seq<Persisted>, horizon: int)
    ensures forall event <- Visible(events, horizon) :: event.observedAt <= horizon
  {
    if events != [] {
      VisibleIsPast(events[..|events| - 1], horizon);
    }
  }

  // Exactly the events observed at the horizon or before it are seen.
  lemma {:induction false} VisibleIff(events: seq<Persisted>, horizon: int, event: Event)
    ensures event in Visible(events, horizon) <==>
              event.observedAt <= horizon && exists entry <- events :: entry.event == event
  {
    if events != [] {
      var front, last := events[..|events| - 1], events[|events| - 1];
      VisibleIff(front, horizon, event);
      assert events == front + [last];
    }
  }

  lemma {:induction false} RunStaysPast(status: Status, events: seq<Event>, horizon: int)
    requires status == ZERO || status.observedAt <= horizon
    requires forall event <- events :: event.observedAt <= horizon
    ensures Run(status, events) == ZERO || Run(status, events).observedAt <= horizon
    decreases events
  {
    if events != [] {
      assert events[0] in events;
      RunStaysPast(Applied(status, events[0]), events[1..], horizon);
    }
  }

  // Every replayed projection keeps the incident and circuit rules and knows nothing past the horizon.
  lemma ReplayIsConsistent(events: seq<Persisted>, horizon: int)
    ensures var status := Run(ZERO, Visible(events, horizon));
            Inv(status) && (status == ZERO || status.observedAt <= horizon)
  {
    ReachableProjections(Visible(events, horizon));
    VisibleIsPast(events, horizon);
    RunStaysPast(ZERO, Visible(events, horizon), horizon);
  }

  // ---------------------------------------------------------------------------------------------
  // Where an incident comes from.

  lemma {:induction false} KeptAreEvents(events: seq<Event>, i: nat)
    requires i < |Kept(events)|
    ensures Kept(events)[i] in events
    decreases |events|
  {
    var front, kept := events[..|events| - 1], Kept(events[..|events| - 1]);
    assert events[|events| - 1] in events;
    if i < |kept| && Kept(events)[i] == kept[i] {
      KeptAreEvents(front, i);
      assert kept[i] in front;
    }
  }

  // An operator who gives a code, or a provider code that is documented to mean it.
  predicate Documented(event: Event)
  {
    || (event.source.Operator? && (event.safeErrorCode != "" || event.providerCode != ""))
    || event.providerCode in {"insufficient_quota", "billing_hard_limit", "payment_required",
                              "credit_balance_exhausted", "organization_spend_limit_exceeded",
                              "project_spend_limit_exceeded", "organization_usage_limit_exceeded",
                              "enforced_spend_limit_reached", "quota_low", "billing_warning", "quota_restored",
                              "billing_restored"}
  }

  lemma ValidIncidentIsDocumented(event: Event)
    requires ValidEvent(event) && (event.credit.CreditExhausted? || event.billing.BillingIssue?)
    ensures Documented(event)
  {
    hide SafeIdentifier, SafeCode;
  }

  /**
   * An exhausted account or a billing issue in the projection of valid events was reported by one of them, an
   * operator's with a code or one with a documented provider code.
   */
  lemma ReplayedIncidentIsDocumented(events: seq<Event>)
    requires forall event <- events :: ValidEvent(event)
    ensures Run(ZERO, events).credit.CreditExhausted? ==>
              exists event <- events :: event.credit.CreditExhausted? && Documented(event)
    ensures Run(ZERO, events).billing.BillingIssue? ==>
              exists event <- events :: event.billing.BillingIssue? && Documented(event)
  {
    hide ValidEvent, Documented, CountSays, CircuitSays, HoldSays, ConfirmationSays, Kept;
    ProjectionSaysItsEvents(events);
    var status, kept := Run(ZERO, events), Kept(events);
    if status.credit.CreditExhausted? {
      var at: nat :| at < |kept| && FirstIncident(kept, at, |kept| - 1);
      KeptAreEvents(events, at);
      ValidIncidentIsDocumented(kept[at]);
    }
    if status.billing.BillingIssue? {
      var at: nat :| at < |kept| && OpenIssue(kept, at, |kept| - 1);
      KeptAreEvents(events, at);
      ValidIncidentIsDocumented(kept[at]);
    }
  }

  // ---------------------------------------------------------------------------------------------
  // An account out of credit whose circuit stays closed.

  function Report(at: nat, credit: Credit): Event
  {
    Event(1, "e", "r", Identity("p", 1, "v", "", ""), "f", at, at + 100, Operator, Available, credit, BillingOK,
          "", "q", 1, at)
  }

  lemma LetterIsSafe(s: string)
    requires |s| == 1 && 'a' <= s[0] <= 'z'
    ensures SafeIdentifier(s) && SafeCode(s)
  {
    assert s[1..] == "" && ByteLength("") == 0;
  }

  lemma ReportIsValid(at: nat, credit: Credit)
    requires at > 0 && !credit.NoCredit?
    ensures ValidEvent(Report(at, credit))
  {
    LetterIsSafe("e");
    LetterIsSafe("r");
    LetterIsSafe("p");
    LetterIsSafe("v");
    LetterIsSafe("f");
    LetterIsSafe("q");
  }

  lemma RunOfTwo(status: Status, one: Event, two: Event)
    ensures Run(status, [one, two]) == Applied(Applied(status, one), two)
  {
    assert [one, two][1..] == [two] && [two][1..] == [];
    assert Run(Applied(status, one), [two]) == Run(Applied(Applied(status, one), two), []);
  }

  /**
   * An operator reports low credit and then exhausted credit: both events are valid and applied, yet
   * the projection keeps low credit and a closed circuit.
   */
  lemma LowCreditMasksExhaustion(low: Event, out: Event)
    requires low == Report(1, CreditLow) && out == Report(2, CreditExhausted)
    ensures ValidEvent(low) && ValidEvent(out)
    ensures !Rejects(ZERO, low) && !Rejects(Applied(ZERO, low), out)
    ensures Run(ZERO, [low, out]).credit.CreditLow? && Run(ZERO, [low, out]).circuit.Closed?
  {
    ReportIsValid(1, CreditLow);
    ReportIsValid(2, CreditExhausted);
    RunOfTwo(ZERO, low, out);
  }
}
