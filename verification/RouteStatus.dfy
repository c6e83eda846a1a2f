/**
 * The current projection of one route's status events: sticky credit and billing incidents, a
 * failure counter and a circuit.
 *
 * `RouteProjection` holds the record that `Apply` updates in place; `Applied` is the same step on values.
 * A digest of 0 is the all-zero digest and a time of 0 is the zero time; "" is an unset name.
 */
module RouteStatus {
  datatype Source = Inference | ManagementAPI | StartupProbe | Operator | OtherSource

  datatype Availability = NoAvailability | Available | Degraded | Unavailable | AvailabilityUnknown

  datatype Credit = NoCredit | CreditOK | CreditLow | CreditExhausted | CreditUnknown
  {
    predicate Incident() { CreditLow? || CreditExhausted? }
  }

  datatype Billing = NoBilling | BillingOK | BillingIssue | BillingUnknown

  datatype Circuit = NoCircuit | Closed | Opened | HalfOpen

  // Who the observation is about, besides the route.
  datatype Identity = Identity(
    endpointId: string,
    account: nat,
    provider: string,
    model: string,
    providerTier: string)

  datatype Event = Event(
    configDigest: nat,
    configEpoch: string,
    routeId: string,
    identity: Identity,
    endpointFamily: string,
    observedAt: int,
    expiresAt: int,
    source: Source,
    availability: Availability,
    credit: Credit,
    billing: Billing,
    safeErrorCode: string,
    providerCode: string,
    evidenceDigest: nat,
    eventDigest: nat)
  {
    predicate CanClearIncident()
    {
      (source.ManagementAPI? || source.Operator?) && configEpoch != ""
    }

    predicate ClearsCredit() { CanClearIncident() && credit.CreditOK? }

    predicate ClearsBilling() { CanClearIncident() && billing.BillingOK? }

    predicate AuthoritativeCreditIncident()
    {
      credit.Incident() && (source.ManagementAPI? || source.Operator? || providerCode != "")
    }

    // Failures that condemn the endpoint at once, without counting.
    predicate OpensAtOnce()
    {
      safeErrorCode == "authentication" || safeErrorCode == "configuration" || safeErrorCode == "insufficient_credit"
    }

    predicate ReportsHealth()
    {
      availability.Available? && credit.CreditOK? && billing.BillingOK? && !OpensAtOnce()
    }

    predicate DefiniteFailure() { availability.Unavailable? || availability.Degraded? }
  }

  datatype Status = Status(
    configDigest: nat,
    configEpoch: string,
    routeId: string,
    identity: Identity,
    endpointFamily: string,
    availability: Availability,
    credit: Credit,
    billing: Billing,
    circuit: Circuit,
    failures: int,
    lastEventDigest: nat,
    observedAt: int,
    staleAfter: int,
    creditConfirmedAt: int)

  const ZERO :=
    Status(0, "", "", Identity("", 0, "", "", ""), "", NoAvailability, NoCredit, NoBilling, NoCircuit, 0, 0, 0, 0, 0)

  predicate NewEpoch(status: Status, event: Event)
  {
    status.configEpoch != "" && status.configEpoch != event.configEpoch
  }

  // Stale, or about another route, configuration or endpoint.
  predicate Rejects(status: Status, event: Event)
  {
    || event.routeId == ""
    || event.eventDigest == 0
    || (status.observedAt != 0 && event.observedAt <= status.observedAt)
    || (status.configDigest != 0 && (status.routeId != event.routeId || status.configDigest != event.configDigest))
    || (!NewEpoch(status, event) && status.routeId != "" && status.identity != event.identity)
  }

  function StickyCredit(before: Credit, event: Event): Credit
  {
    if before.Incident() && !event.ClearsCredit() then before else event.credit
  }

  function StickyBilling(before: Billing, event: Event): Billing
  {
    if before.BillingIssue? && !event.ClearsBilling() then BillingIssue else event.billing
  }

  predicate Healthy(status: Status, event: Event)
  {
    && event.availability.Available?
    && StickyCredit(status.credit, event).CreditOK?
    && StickyBilling(status.billing, event).BillingOK?
  }

  function FailuresAfter(status: Status, event: Event): int
  {
    if Healthy(status, event) then 0
    else if event.DefiniteFailure() && status.failures < 3 then status.failures + 1
    else status.failures
  }

  function CircuitAfter(status: Status, event: Event): Circuit
  {
    if event.OpensAtOnce() || StickyCredit(status.credit, event).CreditExhausted?
       || StickyBilling(status.billing, event).BillingIssue?
    then Opened
    else if Healthy(status, event) then Closed
    else if event.DefiniteFailure() && FailuresAfter(status, event) >= 3 then Opened
    else if status.circuit.NoCircuit? then Closed
    else status.circuit
  }

  function HeldUntil(status: Status, event: Event): int
  {
    if status.circuit.Opened? && CircuitAfter(status, event).Opened? && status.staleAfter > event.expiresAt
    then status.staleAfter else event.expiresAt
  }

  function ConfirmedAfter(status: Status, event: Event): int
  {
    var credit := StickyCredit(status.credit, event);
    if credit.Incident() then
      if event.AuthoritativeCreditIncident() then event.observedAt else status.creditConfirmedAt
    else if credit.CreditOK? && event.CanClearIncident() then 0
    else status.creditConfirmedAt
  }

  function Updated(status: Status, event: Event): Status
  {
    Status(
      event.configDigest, event.configEpoch, event.routeId, event.identity, event.endpointFamily,
      event.availability, StickyCredit(status.credit, event), StickyBilling(status.billing, event),
      CircuitAfter(status, event), FailuresAfter(status, event), event.eventDigest, event.observedAt,
      HeldUntil(status, event), ConfirmedAfter(status, event))
  }

  // One event: a rejected one changes nothing, one of a new epoch starts from a fresh projection.
  function Applied(status: Status, event: Event): Status
  {
    if Rejects(status, event) then status
    else Updated(if NewEpoch(status, event) then ZERO else status, event)
  }

  class RouteProjection {
    var status: Status

    constructor ()
      ensures status == ZERO
    {
      status := ZERO;
    }

    // The counter and the circuit, from the incident states already made sticky.
    method Count(event: Event)
      modifies this
      ensures status == old(status).(failures := status.failures, circuit := status.circuit)
      ensures event.credit == StickyCredit(old(status).credit, event)
                && event.billing == StickyBilling(old(status).billing, event) ==>
                && status.failures == FailuresAfter(old(status), event)
                && (if status.circuit.NoCircuit? then Closed else status.circuit) == CircuitAfter(old(status), event)
    {
      if event.availability.Available? && event.credit.CreditOK? && event.billing.BillingOK? {
        status := status.(failures := 0);
        status := status.(circuit := Closed);
      } else if event.availability.Unavailable? || event.availability.Degraded? {
        if status.failures < 3 {
          status := status.(failures := status.failures + 1);
        }
        if status.failures >= 3 {
          status := status.(circuit := Opened);
        }
      }
      if event.OpensAtOnce() || event.credit.CreditExhausted? || event.billing.BillingIssue? {
        status := status.(circuit := Opened);
      }
    }

    // What a circuit is held until, and when a credit incident was last confirmed.
    method Stamp(event: Event, wasOpen: bool)
      modifies this
      ensures status == old(status).(staleAfter := status.staleAfter, creditConfirmedAt := status.creditConfirmedAt)
      ensures status.staleAfter ==
                (if wasOpen && status.circuit.Opened? && old(status).staleAfter > event.expiresAt
                 then old(status).staleAfter else event.expiresAt)
      ensures status.creditConfirmedAt ==
                (if status.credit.Incident() then
                   if event.AuthoritativeCreditIncident() then event.observedAt else old(status).creditConfirmedAt
                 else if status.credit.CreditOK? && event.CanClearIncident() then 0
                 else old(status).creditConfirmedAt)
    {
      var held := event.expiresAt;
      if wasOpen && status.circuit.Opened? && status.staleAfter > held { held := status.staleAfter; }
      status := status.(staleAfter := held);
      if status.credit.CreditLow? || status.credit.CreditExhausted? {
        if event.AuthoritativeCreditIncident() {
          status := status.(creditConfirmedAt := event.observedAt);
        }
      } else if status.credit.CreditOK? && event.CanClearIncident() {
        status := status.(creditConfirmedAt := 0);
      }
    }

    // Records an event that belongs to this projection.
    method Record(event: Event)
      modifies this
      ensures status == Updated(old(status), event)
    {
      var sticky :=
        event.(credit := StickyCredit(status.credit, event), billing := StickyBilling(status.billing, event));
      var wasOpen := status.circuit.Opened?;
      Count(sticky);
      status := status.(
        configDigest := event.configDigest, configEpoch := event.configEpoch, routeId := event.routeId,
        identity := event.identity, endpointFamily := event.endpointFamily, availability := event.availability,
        credit := sticky.credit, billing := sticky.billing, lastEventDigest := event.eventDigest,
        observedAt := event.observedAt);
      if status.circuit.NoCircuit? { status := status.(circuit := Closed); }
      Stamp(event, wasOpen);
    }

    // Applies one event in place; a false answer leaves the projection as it was.
    method Apply(event: Event) returns (applied: bool)
      modifies this
      ensures applied <==> !Rejects(old(status), event)
      ensures status == Applied(old(status), event)
    {
      if event.routeId == "" || event.eventDigest == 0 { return false; }
      if status.observedAt != 0 && event.observedAt <= status.observedAt { return false; }
      if status.configDigest != 0 && status.routeId != event.routeId { return false; }
      if status.configDigest != 0 && status.configDigest != event.configDigest { return false; }
      if status.configEpoch != "" && status.configEpoch != event.configEpoch { status := ZERO; }
      if status.routeId != "" && status.identity != event.identity { return false; }
      Record(event);
      applied := true;
    }
  }

  // ---------------------------------------------------------------------------------------------
  // Every run of events.

  function Run(status: Status, events: seq<Event>): Status
    decreases events
  {
    if events == [] then status else Run(Applied(status, events[0]), events[1..])
  }

  lemma {:induction false} RunConcat(status: Status, first: seq<Event>, rest: seq<Event>)
    ensures Run(status, first + rest) == Run(Run(status, first), rest)
    decreases first
  {
    if first == [] {
      assert first + rest == rest;
    } else {
      assert (first + rest)[0] == first[0] && (first + rest)[1..] == first[1..] + rest;
      RunConcat(Applied(status, first[0]), first[1..], rest);
    }
  }

  predicate Inv(status: Status)
  {
    && 0 <= status.failures <= 3
    && (status.credit.CreditExhausted? ==> status.circuit.Opened?)
    && (status.billing.BillingIssue? ==> status.circuit.Opened?)
    && (status.failures == 3 ==> status.circuit.Opened?)
    && (status.creditConfirmedAt != 0 ==> status.credit.Incident())
    && !status.circuit.HalfOpen?
  }

  /**
   * From the zero projection, whatever events arrive: exhausted credit, a billing issue and three
   * failures each mean an open circuit, the count stops at three, and a confirmation time is set only
   * while a credit incident is active.
   */
  lemma {:induction false} EveryProjectionIsConsistent(status: Status, events: seq<Event>)
    requires Inv(status)
    ensures Inv(Run(status, events))
    decreases events
  {
    if events != [] {
      EveryProjectionIsConsistent(Applied(status, events[0]), events[1..]);
    }
  }

  lemma ReachableProjections(events: seq<Event>)
    ensures Inv(Run(ZERO, events))
  {
    EveryProjectionIsConsistent(ZERO, events);
  }

  predicate SameEpoch(status: Status, events: seq<Event>)
  {
    forall event <- events :: !NewEpoch(status, event)
  }

  lemma EpochStays(status: Status, events: seq<Event>)
    requires events != [] && status.configEpoch != "" && SameEpoch(status, events)
    ensures Applied(status, events[0]).configEpoch == status.configEpoch
    ensures SameEpoch(Applied(status, events[0]), events[1..])
  {
    assert events[0] in events;
    forall event | event in events[1..]
      ensures !NewEpoch(Applied(status, events[0]), event)
    {
      assert event in events;
    }
  }

  predicate SomeApplied(status: Status, events: seq<Event>, test: Event -> bool)
    decreases events
  {
    events != [] &&
    ((!Rejects(status, events[0]) && test(events[0])) || SomeApplied(Applied(status, events[0]), events[1..], test))
  }

  /**
   * Within one epoch a credit incident changes only through an applied, explicit OK from the
   * management API or an operator.
   */
  lemma {:induction false} CreditIncidentIsSticky(status: Status, events: seq<Event>)
    requires status.credit.Incident() && status.configEpoch != "" && SameEpoch(status, events)
    ensures Run(status, events).credit != status.credit ==>
              SomeApplied(status, events, (event: Event) => event.ClearsCredit())
    decreases events
  {
    if events != [] {
      EpochStays(status, events);
      var next := Applied(status, events[0]);
      assert events[0] in events;
      if next.credit == status.credit {
        CreditIncidentIsSticky(next, events[1..]);
      }
    }
  }

  lemma {:induction false} BillingIssueIsSticky(status: Status, events: seq<Event>)
    requires status.billing.BillingIssue? && status.configEpoch != "" && SameEpoch(status, events)
    ensures !Run(status, events).billing.BillingIssue? ==>
              SomeApplied(status, events, (event: Event) => event.ClearsBilling())
    decreases events
  {
    if events != [] {
      EpochStays(status, events);
      var next := Applied(status, events[0]);
      assert events[0] in events;
      if next.billing.BillingIssue? {
        BillingIssueIsSticky(next, events[1..]);
      }
    }
  }

  // The projection an applied event is recorded in.
  function Base(status: Status, event: Event): Status
  {
    if NewEpoch(status, event) then ZERO else status
  }

  /**
   * After any events, an applied report of exhausted credit leaves the circuit open exactly when credit was not already
   * low, or something else opens it or keeps it open: low credit masks the exhaustion.
   */
  lemma ExhaustionOpensIff(events: seq<Event>, event: Event)
    requires !Rejects(Run(ZERO, events), event) && event.credit.CreditExhausted?
    ensures var base := Base(Run(ZERO, events), event);
            Run(ZERO, events + [event]).circuit.Opened? <==>
              || !base.credit.CreditLow?
              || event.OpensAtOnce()
              || event.billing.BillingIssue?
              || (base.billing.BillingIssue? && !event.ClearsBilling())
              || (event.DefiniteFailure() && base.failures >= 2)
              || base.circuit.Opened?
    ensures Run(ZERO, events + [event]).credit.CreditExhausted? <==>
              !Base(Run(ZERO, events), event).credit.CreditLow?
  {
    ReachableProjections(events);
    RunConcat(ZERO, events, [event]);
    assert [event][1..] == [];
    assert Run(Run(ZERO, events), [event]) == Applied(Run(ZERO, events), event);
  }

  predicate OpenThroughout(status: Status, events: seq<Event>)
    decreases events
  {
    status.circuit.Opened? && (events != [] ==> OpenThroughout(Applied(status, events[0]), events[1..]))
  }

  // While the circuit stays open, the time it is held until never moves back.
  lemma {:induction false} HoldNeverShrinks(status: Status, events: seq<Event>)
    requires status.configEpoch != "" && SameEpoch(status, events) && OpenThroughout(status, events)
    ensures status.staleAfter <= Run(status, events).staleAfter
    decreases events
  {
    if events != [] {
      EpochStays(status, events);
      assert events[0] in events;
      HoldNeverShrinks(Applied(status, events[0]), events[1..]);
    }
  }

  // An open circuit closes within its epoch by exactly one kind of event.
  lemma CircuitClosesIff(status: Status, event: Event)
    requires Inv(status) && status.circuit.Opened? && !NewEpoch(status, event) && !Rejects(status, event)
    ensures !Applied(status, event).circuit.Opened? <==>
              && event.availability.Available? && event.credit.CreditOK? && event.billing.BillingOK?
              && !event.OpensAtOnce()
              && (status.credit.Incident() || status.billing.BillingIssue? ==> event.CanClearIncident())
  {
  }

  // Over a run within an epoch, an open circuit closes only through an applied, fully healthy event
  // that carries no condemning code.
  lemma {:induction false} OpenCircuitNeedsHealth(status: Status, events: seq<Event>)
    requires Inv(status) && status.circuit.Opened? && status.configEpoch != "" && SameEpoch(status, events)
    ensures !Run(status, events).circuit.Opened? ==>
              SomeApplied(status, events, (event: Event) => event.ReportsHealth())
    decreases events
  {
    if events != [] {
      EpochStays(status, events);
      var next := Applied(status, events[0]);
      assert events[0] in events;
      if next.circuit.Opened? {
        OpenCircuitNeedsHealth(next, events[1..]);
      } else {
        CircuitClosesIff(status, events[0]);
      }
    }
  }

  // ---------------------------------------------------------------------------------------------
  // Observation times.

  predicate Dated(events: seq<Event>)
  {
    forall event <- events :: event.observedAt != 0
  }

  lemma {:induction false} TimeNeverFalls(status: Status, events: seq<Event>)
    requires status.observedAt != 0 && Dated(events)
    ensures Run(status, events).observedAt != 0
    ensures status.observedAt <= Run(status, events).observedAt
    decreases events
  {
    if events != [] {
      assert events[0] in events;
      assert Dated(events[1..]) by {
        assert forall event <- events[1..] :: event in events;
      }
      TimeNeverFalls(Applied(status, events[0]), events[1..]);
    }
  }

  // An event that was applied changes nothing when it is delivered again, however much later.
  lemma RedeliveryChangesNothing(status: Status, event: Event, later: seq<Event>)
    requires !Rejects(status, event) && event.observedAt != 0 && Dated(later)
    ensures var reached := Run(Applied(status, event), later);
            Rejects(reached, event) && Applied(reached, event) == reached
  {
    TimeNeverFalls(Applied(status, event), later);
  }

  // A later event is applied only if it was observed strictly after every one applied before it.
  lemma AppliedTimesIncrease(status: Status, event: Event, between: seq<Event>, next: Event)
    requires !Rejects(status, event) && event.observedAt != 0 && Dated(between)
    requires !Rejects(Run(Applied(status, event), between), next)
    ensures event.observedAt < next.observedAt
  {
    TimeNeverFalls(Applied(status, event), between);
  }
}
