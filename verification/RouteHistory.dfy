/**
 * What a route's projection says of the events it applied, stated on the fields of those events alone.
 *
 * `Kept` is the applied events of the current epoch. Every field of the projection is read off them by
 * position: which incident is open, how many failures there were since all was well, since when the
 * circuit is open, until when it is held.
 */
module RouteHistory {
  import opened RouteStatus

  // The events of the current epoch that are neither stale nor about something else.
  function Kept(events: seq<Event>): seq<Event>
    decreases |events|
  {
    if events == [] then [] else
      var kept := Kept(events[..|events| - 1]);
      var event := events[|events| - 1];
      if event.routeId == "" || event.eventDigest == 0 then kept
      else if kept == [] then [event]
      else
        var latest := kept[|kept| - 1];
        if latest.observedAt != 0 && event.observedAt <= latest.observedAt then kept
        else if latest.configDigest != 0 && latest.routeId != event.routeId then kept
        else if latest.configDigest != 0 && latest.configDigest != event.configDigest then kept
        else if latest.configEpoch != "" && latest.configEpoch != event.configEpoch then [event]
        else if latest.identity != event.identity then kept
        else kept + [event]
  }

  predicate Trusted(event: Event)
  {
    (event.source.ManagementAPI? || event.source.Operator?) && event.configEpoch != ""
  }

  // A credit incident reported at `at` that no trusted OK up to `now` has cleared.
  predicate OpenIncident(kept: seq<Event>, at: nat, now: nat)
  {
    && at <= now < |kept|
    && (kept[at].credit.CreditLow? || kept[at].credit.CreditExhausted?)
    && forall i :: at < i <= now ==> !(Trusted(kept[i]) && kept[i].credit.CreditOK?)
  }

  predicate FirstIncident(kept: seq<Event>, at: nat, now: nat)
  {
    OpenIncident(kept, at, now) && forall i: nat :: i < at ==> !OpenIncident(kept, i, now)
  }

  predicate OpenIssue(kept: seq<Event>, at: nat, now: nat)
  {
    && at <= now < |kept|
    && kept[at].billing.BillingIssue?
    && forall i :: at < i <= now ==> !(Trusted(kept[i]) && kept[i].billing.BillingOK?)
  }

  // The event reports an available endpoint with credit and billing in order, and nothing else is open.
  predicate AllWell(kept: seq<Event>, now: nat)
  {
    && now < |kept|
    && kept[now].availability.Available? && kept[now].credit.CreditOK? && kept[now].billing.BillingOK?
    && (forall at: nat :: at < now ==> !OpenIncident(kept, at, now))
    && (forall at: nat :: at < now ==> !OpenIssue(kept, at, now))
  }

  // How many of the first `n` events failed since the last one at which all was well.
  function Streak(kept: seq<Event>, n: nat): nat
    requires n <= |kept|
  {
    if n == 0 || AllWell(kept, n - 1) then 0
    else if kept[n - 1].availability.Unavailable? || kept[n - 1].availability.Degraded? then 1 + Streak(kept, n - 1)
    else Streak(kept, n - 1)
  }

  predicate Condemns(event: Event)
  {
    event.safeErrorCode in {"authentication", "configuration", "insufficient_credit"}
  }

  predicate Opens(kept: seq<Event>, now: nat)
  {
    now < |kept| &&
    (|| Condemns(kept[now])
     || (exists at: nat :: at <= now && FirstIncident(kept, at, now) && kept[at].credit.CreditExhausted?)
     || (exists at: nat :: at <= now && OpenIssue(kept, at, now))
     || ((kept[now].availability.Unavailable? || kept[now].availability.Degraded?) && Streak(kept, now + 1) >= 3))
  }

  // Something opened the circuit, and all has not been well without a condemning code since.
  predicate OpenSince(kept: seq<Event>, at: nat, now: nat)
  {
    at <= now < |kept| && Opens(kept, at) && forall i :: at < i <= now ==> !(AllWell(kept, i) && !Condemns(kept[i]))
  }

  predicate OpenAt(kept: seq<Event>, now: nat)
  {
    exists at: nat :: at <= now && OpenSince(kept, at, now)
  }

  // The circuit has been open from `at` on.
  predicate HeldFrom(kept: seq<Event>, at: nat, now: nat)
  {
    at <= now < |kept| && forall i: nat :: at <= i <= now ==> OpenAt(kept, i)
  }

  // An open incident confirmed by someone who knows.
  predicate Confirmed(kept: seq<Event>, at: nat, now: nat)
  {
    && OpenIncident(kept, at, now)
    && (kept[at].source.ManagementAPI? || kept[at].source.Operator? || kept[at].providerCode != "")
  }

  // ---------------------------------------------------------------------------------------------
  // What the fields of a projection say.

  predicate Names(status: Status, kept: seq<Event>)
  {
    if kept == [] then status == ZERO
    else
      var latest := kept[|kept| - 1];
      && status.configDigest == latest.configDigest && status.configEpoch == latest.configEpoch
      && status.routeId == latest.routeId && status.routeId != "" && status.identity == latest.identity
      && status.endpointFamily == latest.endpointFamily && status.availability == latest.availability
      && status.lastEventDigest == latest.eventDigest && status.observedAt == latest.observedAt
  }

  // The incident that was opened first, and with none open what the latest event reports.
  predicate CreditIs(credit: Credit, kept: seq<Event>, now: nat)
    requires now < |kept|
  {
    && (forall at: nat :: at <= now && OpenIncident(kept, at, now) ==> credit.Incident())
    && (credit.Incident() ==> exists at: nat :: at <= now && FirstIncident(kept, at, now))
    && (forall at: nat :: at <= now && FirstIncident(kept, at, now) ==> credit == kept[at].credit)
    && (!credit.Incident() ==> credit == kept[now].credit)
  }

  predicate CreditSays(status: Status, kept: seq<Event>)
  {
    kept != [] ==> CreditIs(status.credit, kept, |kept| - 1)
  }

  predicate BillingSays(status: Status, kept: seq<Event>)
  {
    kept != [] ==>
      var now := |kept| - 1;
      && (status.billing.BillingIssue? <==> exists at: nat :: at <= now && OpenIssue(kept, at, now))
      && (!status.billing.BillingIssue? ==> status.billing == kept[now].billing)
  }

  predicate CountSays(status: Status, kept: seq<Event>)
  {
    status.failures == if Streak(kept, |kept|) < 3 then Streak(kept, |kept|) else 3
  }

  predicate CircuitSays(status: Status, kept: seq<Event>)
  {
    kept != [] ==>
      && (status.circuit.Opened? <==> OpenAt(kept, |kept| - 1))
      && (!status.circuit.Opened? ==> status.circuit.Closed?)
  }

  // Held as long as any event since the circuit opened asked for, and no longer.
  predicate HoldSays(status: Status, kept: seq<Event>)
  {
    kept != [] ==>
      var now := |kept| - 1;
      && status.staleAfter >= kept[now].expiresAt
      && (forall at: nat :: at <= now && HeldFrom(kept, at, now) ==> kept[at].expiresAt <= status.staleAfter)
      && (|| status.staleAfter == kept[now].expiresAt
          || exists at: nat :: at <= now && HeldFrom(kept, at, now) && status.staleAfter == kept[at].expiresAt)
  }

  predicate ConfirmationSays(status: Status, kept: seq<Event>)
  {
    kept != [] ==>
      var now := |kept| - 1;
      && (forall at: nat ::
            at <= now && Confirmed(kept, at, now) && (forall i: nat :: at < i <= now ==> !Confirmed(kept, i, now)) ==>
            status.creditConfirmedAt == kept[at].observedAt)
      && ((forall at: nat :: at <= now ==> !Confirmed(kept, at, now)) ==> status.creditConfirmedAt == 0)
  }

  predicate Says(status: Status, kept: seq<Event>)
  {
    && Names(status, kept)
    && CreditSays(status, kept)
    && BillingSays(status, kept)
    && CountSays(status, kept)
    && CircuitSays(status, kept)
    && HoldSays(status, kept)
    && ConfirmationSays(status, kept)
  }

  // ---------------------------------------------------------------------------------------------
  // One more event. What is said of the earlier ones stays.

  lemma IncidentSteps(kept: seq<Event>, event: Event, at: nat, now: nat)
    requires now <= |kept|
    ensures now < |kept| ==> (OpenIncident(kept + [event], at, now) <==> OpenIncident(kept, at, now))
    ensures now == |kept| && at < now ==>
              (OpenIncident(kept + [event], at, now) <==>
               OpenIncident(kept, at, now - 1) && !(Trusted(event) && event.credit.CreditOK?))
    ensures now == |kept| && at == now ==>
              (OpenIncident(kept + [event], at, now) <==> event.credit.CreditLow? || event.credit.CreditExhausted?)
  {
    var more := kept + [event];
    assert forall i :: 0 <= i < |kept| ==> more[i] == kept[i];
    assert more[|kept|] == event;
  }

  lemma IssueSteps(kept: seq<Event>, event: Event, at: nat, now: nat)
    requires now <= |kept|
    ensures now < |kept| ==> (OpenIssue(kept + [event], at, now) <==> OpenIssue(kept, at, now))
    ensures now == |kept| && at < now ==>
              (OpenIssue(kept + [event], at, now) <==>
               OpenIssue(kept, at, now - 1) && !(Trusted(event) && event.billing.BillingOK?))
    ensures now == |kept| && at == now ==> (OpenIssue(kept + [event], at, now) <==> event.billing.BillingIssue?)
  {
    var more := kept + [event];
    assert forall i :: 0 <= i < |kept| ==> more[i] == kept[i];
    assert more[|kept|] == event;
  }

  // Which incidents are open with one more event.
  ghost predicate IncidentsMove(kept: seq<Event>, event: Event)
  {
    forall at: nat :: at <= |kept| ==>
      (OpenIncident(kept + [event], at, |kept|) <==>
       if at < |kept| then OpenIncident(kept, at, |kept| - 1) && !event.ClearsCredit() else event.credit.Incident())
  }

  lemma IncidentsDoMove(kept: seq<Event>, event: Event)
    ensures IncidentsMove(kept, event)
  {
    hide OpenIncident;
    forall at: nat | at <= |kept|
      ensures OpenIncident(kept + [event], at, |kept|) <==>
              if at < |kept| then OpenIncident(kept, at, |kept| - 1) && !event.ClearsCredit()
              else event.credit.Incident()
    {
      IncidentSteps(kept, event, at, |kept|);
    }
  }

  // With an incident open that is not cleared, the first one stays the first.
  lemma FirstStays(status: Status, kept: seq<Event>, event: Event)
    requires kept != [] && CreditSays(status, kept) && status.credit.Incident() && !event.ClearsCredit()
    ensures exists at: nat :: at <= |kept| && FirstIncident(kept + [event], at, |kept|)
    ensures forall at: nat :: at <= |kept| && FirstIncident(kept + [event], at, |kept|) ==>
              status.credit == (kept + [event])[at].credit
  {
    hide OpenIncident;
    var more, now := kept + [event], |kept|;
    IncidentsDoMove(kept, event);
    var first: nat :| first < now && FirstIncident(kept, first, now - 1);
    assert FirstIncident(more, first, now);
    assert more[first] == kept[first];
    forall at: nat | at <= now && FirstIncident(more, at, now)
      ensures status.credit == more[at].credit
    {
      assert OpenIncident(more, at, now) && OpenIncident(more, first, now);
      assert at == first;
    }
  }

  // With none open, or with the open one cleared, only the event can open one.
  lemma FirstIsNew(status: Status, kept: seq<Event>, event: Event)
    requires CreditSays(status, kept) && (kept == [] ==> status == ZERO)
    requires !status.credit.Incident() || event.ClearsCredit()
    ensures forall at: nat :: at <= |kept| && OpenIncident(kept + [event], at, |kept|) ==>
              at == |kept| && event.credit.Incident()
    ensures event.credit.Incident() ==> FirstIncident(kept + [event], |kept|, |kept|)
  {
    hide OpenIncident;
    IncidentsDoMove(kept, event);
  }

  lemma CreditStep(status: Status, kept: seq<Event>, event: Event)
    requires CreditSays(status, kept) && (kept == [] ==> status == ZERO)
    ensures CreditSays(Updated(status, event), kept + [event])
  {
    hide OpenIncident;
    var more, now := kept + [event], |kept|;
    var after := Updated(status, event).credit;
    assert more[now] == event && now == |more| - 1;
    if status.credit.Incident() && !event.ClearsCredit() {
      FirstStays(status, kept, event);
      assert after == status.credit;
      assert CreditIs(after, more, now);
    } else {
      FirstIsNew(status, kept, event);
      assert after == event.credit;
      forall at: nat | at <= now && FirstIncident(more, at, now)
        ensures at == now
      {
        assert OpenIncident(more, at, now);
      }
      assert CreditIs(after, more, now);
    }
  }

  lemma BillingStep(status: Status, kept: seq<Event>, event: Event)
    requires BillingSays(status, kept) && (kept == [] ==> status == ZERO)
    ensures BillingSays(Updated(status, event), kept + [event])
  {
    hide OpenIssue;
    var more, now := kept + [event], |kept|;
    forall at: nat | at <= now
      ensures OpenIssue(more, at, now) <==>
              if at < now then OpenIssue(kept, at, now - 1) && !event.ClearsBilling() else event.billing.BillingIssue?
    {
      IssueSteps(kept, event, at, now);
    }
    var after := Updated(status, event).billing;
    assert more[now] == event && now == |more| - 1;
    if status.billing.BillingIssue? && !event.ClearsBilling() {
      var at: nat :| at < now && OpenIssue(kept, at, now - 1);
      assert OpenIssue(more, at, now);
    }
    assert event.billing.BillingIssue? ==> OpenIssue(more, now, now);
    assert forall at: nat :: at <= now && OpenIssue(more, at, now) ==> after.BillingIssue?;
  }

  // All was well at an earlier event exactly if it was, and is now exactly when the event leaves it so.
  lemma WellStays(kept: seq<Event>, event: Event, now: nat)
    requires now < |kept|
    ensures AllWell(kept + [event], now) <==> AllWell(kept, now)
  {
    hide OpenIncident, OpenIssue;
    forall at: nat
      ensures OpenIncident(kept + [event], at, now) <==> OpenIncident(kept, at, now)
      ensures OpenIssue(kept + [event], at, now) <==> OpenIssue(kept, at, now)
    {
      IncidentSteps(kept, event, at, now);
      IssueSteps(kept, event, at, now);
    }
  }

  lemma WellNow(status: Status, kept: seq<Event>, event: Event)
    requires CreditSays(status, kept) && BillingSays(status, kept) && (kept == [] ==> status == ZERO)
    ensures AllWell(kept + [event], |kept|) <==> Healthy(status, event)
  {
    hide OpenIncident, OpenIssue;
    var more, now := kept + [event], |kept|;
    assert more[now] == event;
    forall at: nat | at < now
      ensures OpenIncident(more, at, now) <==> OpenIncident(kept, at, now - 1) && !event.ClearsCredit()
      ensures OpenIssue(more, at, now) <==> OpenIssue(kept, at, now - 1) && !event.ClearsBilling()
    {
      IncidentSteps(kept, event, at, now);
      IssueSteps(kept, event, at, now);
    }
    if status.credit.Incident() {
      var at: nat :| at < now && FirstIncident(kept, at, now - 1);
      assert OpenIncident(more, at, now) <==> !event.ClearsCredit();
    }
    if status.billing.BillingIssue? {
      var at: nat :| at < now && OpenIssue(kept, at, now - 1);
      assert OpenIssue(more, at, now) <==> !event.ClearsBilling();
    }
  }

  lemma {:induction false} StreakStays(kept: seq<Event>, event: Event, n: nat)
    requires n <= |kept|
    ensures Streak(kept + [event], n) == Streak(kept, n)
  {
    if n > 0 {
      WellStays(kept, event, n - 1);
      StreakStays(kept, event, n - 1);
    }
  }

  lemma CountStep(status: Status, kept: seq<Event>, event: Event)
    requires CreditSays(status, kept) && BillingSays(status, kept) && CountSays(status, kept)
    requires kept == [] ==> status == ZERO
    ensures CountSays(Updated(status, event), kept + [event])
  {
    hide CreditSays, BillingSays, AllWell;
    WellNow(status, kept, event);
    StreakStays(kept, event, |kept|);
    assert (kept + [event])[|kept|] == event;
  }

  lemma OpensStays(kept: seq<Event>, event: Event, now: nat)
    requires now < |kept|
    ensures Opens(kept + [event], now) <==> Opens(kept, now)
  {
    hide OpenIncident, OpenIssue, AllWell, Streak;
    StreakStays(kept, event, now + 1);
    forall at: nat
      ensures OpenIncident(kept + [event], at, now) <==> OpenIncident(kept, at, now)
      ensures OpenIssue(kept + [event], at, now) <==> OpenIssue(kept, at, now)
    {
      IncidentSteps(kept, event, at, now);
      IssueSteps(kept, event, at, now);
    }
    var more := kept + [event];
    assert forall at: nat :: FirstIncident(more, at, now) <==> FirstIncident(kept, at, now);
    assert forall at: nat :: at < |kept| ==> more[at] == kept[at];
  }

  lemma OpenStays(kept: seq<Event>, event: Event, now: nat)
    requires now < |kept|
    ensures forall at: nat :: OpenSince(kept + [event], at, now) <==> OpenSince(kept, at, now)
    ensures OpenAt(kept + [event], now) <==> OpenAt(kept, now)
  {
    hide Opens, AllWell, Condemns;
    var more := kept + [event];
    forall i: nat | i <= now
      ensures more[i] == kept[i]
      ensures (Opens(more, i) <==> Opens(kept, i)) && (AllWell(more, i) <==> AllWell(kept, i))
    {
      OpensStays(kept, event, i);
      WellStays(kept, event, i);
    }
  }

  // The circuit is open now if this event opens it, or it was and all is not well without a condemning code.
  lemma OpenNow(kept: seq<Event>, event: Event)
    ensures var more := kept + [event];
            OpenAt(more, |kept|) <==>
              || Opens(more, |kept|)
              || (kept != [] && OpenAt(kept, |kept| - 1) && !(AllWell(more, |kept|) && !Condemns(event)))
  {
    hide Opens, AllWell, Condemns;
    var more, now := kept + [event], |kept|;
    assert more[now] == event;
    assert Opens(more, now) ==> OpenSince(more, now, now);
    if kept != [] {
      OpenStays(kept, event, now - 1);
      forall at: nat | at < now
        ensures OpenSince(more, at, now) <==> OpenSince(kept, at, now - 1) && !(AllWell(more, now) && !Condemns(event))
      {
        assert OpenSince(more, at, now - 1) <==> OpenSince(kept, at, now - 1);
      }
      if OpenAt(kept, now - 1) && !(AllWell(more, now) && !Condemns(event)) {
        var at: nat :| at <= now - 1 && OpenSince(kept, at, now - 1);
        assert OpenSince(more, at, now);
      }
    }
    if OpenAt(more, now) && !Opens(more, now) {
      var at: nat :| at <= now && OpenSince(more, at, now);
      assert at < now && OpenSince(kept, at, now - 1);
    }
  }

  lemma OpensNow(status: Status, kept: seq<Event>, event: Event)
    requires var after, more := Updated(status, event), kept + [event];
             CreditSays(after, more) && BillingSays(after, more) && CountSays(after, more)
    ensures var after := Updated(status, event);
            Opens(kept + [event], |kept|) <==>
              || event.OpensAtOnce() || after.credit.CreditExhausted? || after.billing.BillingIssue?
              || (event.DefiniteFailure() && after.failures >= 3)
  {
    hide OpenIncident, OpenIssue, AllWell, Streak, Updated;
    var more, now := kept + [event], |kept|;
    assert more[now] == event && |more| - 1 == now;
    var after := Updated(status, event);
    if after.credit.CreditExhausted? {
      var at: nat :| at <= now && FirstIncident(more, at, now);
      assert more[at].credit.CreditExhausted?;
    }
  }

  lemma CircuitStep(status: Status, kept: seq<Event>, event: Event)
    requires CreditSays(status, kept) && BillingSays(status, kept) && CountSays(status, kept)
    requires CircuitSays(status, kept) && (kept == [] ==> status == ZERO)
    ensures CircuitSays(Updated(status, event), kept + [event])
  {
    hide CreditSays, BillingSays, CountSays, AllWell, Opens, OpenAt;
    CreditStep(status, kept, event);
    BillingStep(status, kept, event);
    CountStep(status, kept, event);
    WellNow(status, kept, event);
    OpensNow(status, kept, event);
    OpenNow(kept, event);
  }

  lemma HeldSteps(kept: seq<Event>, event: Event, at: nat)
    requires at <= |kept|
    ensures HeldFrom(kept + [event], at, |kept|) <==>
            OpenAt(kept + [event], |kept|) && (at == |kept| || HeldFrom(kept, at, |kept| - 1))
  {
    hide OpenAt;
    forall i: nat | i < |kept|
      ensures OpenAt(kept + [event], i) <==> OpenAt(kept, i)
    {
      OpenStays(kept, event, i);
    }
  }

  lemma HoldStep(status: Status, kept: seq<Event>, event: Event)
    requires CircuitSays(status, kept) && CircuitSays(Updated(status, event), kept + [event])
    requires HoldSays(status, kept) && (kept == [] ==> status == ZERO)
    ensures HoldSays(Updated(status, event), kept + [event])
  {
    hide HeldFrom, OpenAt, CircuitAfter;
    var more, now := kept + [event], |kept|;
    var after := Updated(status, event);
    assert more[now] == event && |more| - 1 == now;
    forall at: nat | at <= now
      ensures HeldFrom(more, at, now) <==> OpenAt(more, now) && (at == now || HeldFrom(kept, at, now - 1))
      ensures more[at] == if at == now then event else kept[at]
    {
      HeldSteps(kept, event, at);
    }
    if kept != [] {
      HeldIsOpen(kept, now - 1);
      if after.staleAfter != event.expiresAt {
        assert HeldFrom(kept, now - 1, now - 1);
        var at: nat :| at <= now - 1 && HeldFrom(kept, at, now - 1) && status.staleAfter == kept[at].expiresAt;
        assert HeldFrom(more, at, now);
      }
    }
  }

  lemma HeldIsOpen(kept: seq<Event>, now: nat)
    requires now < |kept|
    ensures forall at: nat :: HeldFrom(kept, at, now) ==> OpenAt(kept, now)
    ensures OpenAt(kept, now) ==> HeldFrom(kept, now, now)
  {
    hide OpenAt;
  }

  lemma ConfirmationStep(status: Status, kept: seq<Event>, event: Event)
    requires CreditSays(status, kept) && ConfirmationSays(status, kept) && (kept == [] ==> status == ZERO)
    ensures ConfirmationSays(Updated(status, event), kept + [event])
  {
    hide OpenIncident, CircuitAfter, FailuresAfter, HeldUntil;
    var more, now := kept + [event], |kept|;
    assert more[now] == event && |more| - 1 == now;
    forall at: nat | at <= now
      ensures Confirmed(more, at, now) <==>
              if at < now then Confirmed(kept, at, now - 1) && !event.ClearsCredit()
              else event.AuthoritativeCreditIncident()
      ensures more[at] == if at == now then event else kept[at]
    {
      IncidentSteps(kept, event, at, now);
    }
  }

  // ---------------------------------------------------------------------------------------------
  // Every run.

  lemma Step(status: Status, kept: seq<Event>, event: Event)
    requires Says(status, kept) && event.routeId != ""
    ensures Says(Updated(status, event), kept + [event])
  {
    hide CreditSays, BillingSays, CountSays, CircuitSays, HoldSays, ConfirmationSays;
    CreditStep(status, kept, event);
    BillingStep(status, kept, event);
    CountStep(status, kept, event);
    CircuitStep(status, kept, event);
    HoldStep(status, kept, event);
    ConfirmationStep(status, kept, event);
  }

  // An event is kept exactly when it is applied, and starts afresh exactly when its epoch is new.
  lemma KeptSteps(front: seq<Event>, event: Event, status: Status)
    requires Names(status, Kept(front))
    ensures Kept(front + [event]) ==
            if Rejects(status, event) then Kept(front)
            else if NewEpoch(status, event) then [event]
            else Kept(front) + [event]
    ensures !Rejects(status, event) ==> event.routeId != ""
  {
    assert (front + [event])[..|front|] == front;
    assert Kept(front) == [] ==> Kept(front) + [event] == [event];
  }

  /**
   * Whatever events arrive, the projection is exactly what the applied events of its epoch say: the credit incident
   * opened first and not cleared, a billing issue not cleared, the failures since all was well up to three, the
   * circuit open since something opened it, and held for as long as any event since then asked.
   */
  lemma {:induction false} ProjectionSaysItsEvents(events: seq<Event>)
    ensures Says(Run(ZERO, events), Kept(events))
    decreases |events|
  {
    hide Names, CreditSays, BillingSays, CountSays, CircuitSays, HoldSays, ConfirmationSays;
    hide Updated, Kept, Rejects, NewEpoch;
    if events == [] {
      NothingSaysNothing();
    } else {
      var front, event := events[..|events| - 1], events[|events| - 1];
      ProjectionSaysItsEvents(front);
      assert events == front + [event];
      RunConcat(ZERO, front, [event]);
      var status, kept := Run(ZERO, front), Kept(front);
      assert [event][1..] == [];
      assert Run(status, [event]) == Applied(status, event);
      KeptSteps(front, event, status);
      if !Rejects(status, event) {
        if NewEpoch(status, event) {
          NothingSaysNothing();
          Step(ZERO, [], event);
          assert [] + [event] == [event];
        } else {
          Step(status, kept, event);
        }
      }
    }
  }

  lemma NothingSaysNothing()
    ensures Says(ZERO, []) && Kept([]) == []
  {
  }

  lemma {:induction false} StreakGrows(kept: seq<Event>, from: nat, n: nat)
    requires from <= n <= |kept| && forall i: nat :: from <= i < n ==> !AllWell(kept, i)
    ensures Streak(kept, from) <= Streak(kept, n)
  {
    if from < n {
      StreakGrows(kept, from, n - 1);
    }
  }

  predicate FailsAt(kept: seq<Event>, i: nat)
  {
    i < |kept| && (kept[i].availability.Unavailable? || kept[i].availability.Degraded?)
  }

  lemma StreakOfThree(kept: seq<Event>, i: nat, j: nat, k: nat)
    requires i < j < k && FailsAt(kept, i) && FailsAt(kept, j) && FailsAt(kept, k)
    requires forall n: nat :: i < n < |kept| ==> !AllWell(kept, n)
    ensures Streak(kept, |kept|) >= 3
  {
    assert !AllWell(kept, i);
    hide AllWell;
    StreakGrows(kept, i + 1, j);
    StreakGrows(kept, j + 1, k);
    StreakGrows(kept, k + 1, |kept|);
  }

  // Three failures leave the circuit open for as long as all is not well at an event since.
  lemma ThreeFailuresOpen(events: seq<Event>, i: nat, j: nat, k: nat)
    requires i < j < k && FailsAt(Kept(events), i) && FailsAt(Kept(events), j) && FailsAt(Kept(events), k)
    requires forall n: nat :: i < n < |Kept(events)| ==> !AllWell(Kept(events), n)
    ensures Run(ZERO, events).circuit == Opened
  {
    hide CreditSays, BillingSays, CircuitSays, HoldSays, ConfirmationSays, Run, Kept, Streak, AllWell;
    ProjectionSaysItsEvents(events);
    StreakOfThree(Kept(events), i, j, k);
    ReachableProjections(events);
  }

  predicate SameSubject(first: Event, second: Event)
  {
    && first.identity == second.identity
    && (first.configEpoch != "" ==> first.configEpoch == second.configEpoch)
    && (first.configDigest != 0 ==> first.configDigest == second.configDigest && first.routeId == second.routeId)
  }

  // The events of one epoch are about one endpoint, and once a configuration is named about that one and its route.
  predicate AboutOne(kept: seq<Event>)
  {
    forall i, j :: 0 <= i < j < |kept| ==> SameSubject(kept[i], kept[j])
  }

  lemma {:induction false} OneSubject(events: seq<Event>)
    ensures AboutOne(Kept(events))
    decreases |events|
  {
    if events != [] {
      var before, event := Kept(events[..|events| - 1]), events[|events| - 1];
      OneSubject(events[..|events| - 1]);
      if before != [] && Kept(events) == before + [event] {
        var latest := before[|before| - 1];
        assert SameSubject(latest, event);
        forall i | 0 <= i < |before|
          ensures SameSubject(before[i], event)
        {
          assert i < |before| - 1 ==> SameSubject(before[i], latest);
        }
      }
    }
  }
}
