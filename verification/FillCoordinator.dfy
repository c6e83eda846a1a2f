/**
 * Collapsing identical cache fills: the first caller for a fingerprint owns a flight and runs the
 * fill, callers that arrive before it finishes wait for that flight.
 *
 * Entering and finishing happen under the coordinator's lock and are one step each; receiving and
 * cancelling are steps of a waiter.  A flight is identified by the record the owner allocated.
 */
module FillCoordinator {
  type Caller = nat
  type Fingerprint = nat
  type FlightId = nat
  type Bytes = seq<bv8>

  // What the fill function did: returned, failed or panicked.
  datatype Fill = Filled(response: Bytes) | Failed(reason: string) | Panicked(reason: string)

  datatype Answer = Response(bytes: Bytes) | Error(reason: string)

  datatype Flight = Flying(key: Fingerprint) | Landed(key: Fingerprint, answer: Answer)

  datatype Seat =
    | Owns(flight: FlightId)
    | Waits(flight: FlightId)
    | Left(flight: FlightId, answer: Answer, shared: bool)
    | Gone(flight: FlightId)

  datatype State = State(
    limit: nat,
    current: map<Fingerprint, FlightId>,
    flights: seq<Flight>,
    seats: map<Caller, Seat>)

  datatype Event =
    | Enter(caller: Caller, key: Fingerprint)
    | Finish(caller: Caller, fill: Fill)
    | Receive(caller: Caller)
    | Cancel(caller: Caller)

  // The owner's result: an oversized response and a panic become errors.
  function Settled(limit: nat, fill: Fill): Answer
  {
    match fill
    case Filled(response) =>
      if limit > 0 && |response| > limit then Error("cache fill response exceeds the limit") else Response(response)
    case Failed(reason) => Error(reason)
    case Panicked(reason) => Error("cache fill panicked: " + reason)
  }

  predicate Flies(s: State, id: FlightId)
  {
    id < |s.flights| && s.flights[id].Flying?
  }

  predicate HasLanded(s: State, id: FlightId)
  {
    id < |s.flights| && s.flights[id].Landed?
  }

  predicate Enabled(s: State, e: Event)
  {
    match e
    case Enter(c, key) => c !in s.seats && key != 0
    case Finish(c, _) => c in s.seats && s.seats[c].Owns? && Flies(s, s.seats[c].flight)
    case Receive(c) => c in s.seats && s.seats[c].Waits? && HasLanded(s, s.seats[c].flight)
    case Cancel(c) => c in s.seats && s.seats[c].Waits?
  }

  function Apply(s: State, e: Event): State
    requires Enabled(s, e)
  {
    match e
    case Enter(c, key) =>
      if key in s.current then s.(seats := s.seats[c := Waits(s.current[key])])
      else s.(
        current := s.current[key := |s.flights|],
        flights := s.flights + [Flying(key)],
        seats := s.seats[c := Owns(|s.flights|)])
    case Finish(c, fill) =>
      var id := s.seats[c].flight;
      var key := s.flights[id].key;
      var answer := Settled(s.limit, fill);
      s.(
        current := s.current - {key},
        flights := s.flights[id := Landed(key, answer)],
        seats := s.seats[c := Left(id, answer, false)])
    case Receive(c) =>
      var id := s.seats[c].flight;
      s.(seats := s.seats[c := Left(id, s.flights[id].answer, true)])
    case Cancel(c) => s.(seats := s.seats[c := Gone(s.seats[c].flight)])
  }

  predicate Initial(s: State)
  {
    s.current == map[] && s.flights == [] && s.seats == map[]
  }

  predicate Runs(s: State, events: seq<Event>)
    decreases events
  {
    events == [] || (Enabled(s, events[0]) && Runs(Apply(s, events[0]), events[1..]))
  }

  function After(s: State, events: seq<Event>): State
    requires Runs(s, events)
    decreases events
  {
    if events == [] then s else After(Apply(s, events[0]), events[1..])
  }

  // The map holds exactly the flights that have not landed.
  predicate MapOk(s: State)
  {
    && (forall key <- s.current :: Flies(s, s.current[key]) && s.flights[s.current[key]].key == key)
    && (forall id: nat | id < |s.flights| :: s.flights[id].Flying? ==>
          s.flights[id].key in s.current && s.current[s.flights[id].key] == id)
  }

  predicate SeatOk(s: State, seat: Seat)
  {
    && seat.flight < |s.flights|
    && (seat.Owns? ==> s.flights[seat.flight].Flying?)
    && (seat.Left? ==> s.flights[seat.flight].Landed? && s.flights[seat.flight].answer == seat.answer)
  }

  predicate Owner(s: State, c: Caller, id: FlightId)
  {
    c in s.seats && s.seats[c] == Owns(id)
  }

  ghost predicate Inv(s: State)
  {
    && MapOk(s)
    && (forall c <- s.seats :: SeatOk(s, s.seats[c]))
    && (forall c, d, id :: Owner(s, c, id) && Owner(s, d, id) ==> c == d)
    && (forall id: nat | Flies(s, id) :: exists c :: Owner(s, c, id))
  }

  lemma EnterKeeps(s: State, e: Event)
    requires Inv(s) && e.Enter? && Enabled(s, e)
    ensures Inv(Apply(s, e))
  {
    var t := Apply(s, e);
    forall c, id | c != e.caller
      ensures Owner(t, c, id) <==> Owner(s, c, id)
    {
    }
    forall id: nat | Flies(t, id)
      ensures exists c :: Owner(t, c, id)
    {
      if Flies(s, id) {
        var c :| Owner(s, c, id);
        assert Owner(t, c, id);
      } else {
        assert Owner(t, e.caller, id);
      }
    }
  }

  lemma FinishKeeps(s: State, e: Event)
    requires Inv(s) && e.Finish? && Enabled(s, e)
    ensures Inv(Apply(s, e))
  {
    var t := Apply(s, e);
    var landed := s.seats[e.caller].flight;
    assert Owner(s, e.caller, landed);
    forall c, id
      ensures Owner(t, c, id) <==> Owner(s, c, id) && c != e.caller
    {
    }
    forall id: nat | Flies(t, id)
      ensures exists c :: Owner(t, c, id)
    {
      assert Flies(s, id);
      var c :| Owner(s, c, id);
      assert Owner(t, c, id);
    }
    forall c | c in t.seats && c != e.caller
      ensures SeatOk(t, t.seats[c])
    {
      assert SeatOk(s, s.seats[c]);
      assert s.seats[c].Owns? ==> Owner(s, c, s.seats[c].flight);
    }
  }

  lemma WaiterKeeps(s: State, e: Event)
    requires Inv(s) && (e.Receive? || e.Cancel?) && Enabled(s, e)
    ensures Inv(Apply(s, e))
  {
    var t := Apply(s, e);
    assert SeatOk(s, s.seats[e.caller]);
    forall c, id
      ensures Owner(t, c, id) <==> Owner(s, c, id)
    {
    }
    forall id: nat | Flies(t, id)
      ensures exists c :: Owner(t, c, id)
    {
      assert Flies(s, id);
      var c :| Owner(s, c, id);
      assert Owner(t, c, id);
    }
  }

  lemma StepKeeps(s: State, e: Event)
    requires Inv(s) && Enabled(s, e)
    ensures Inv(Apply(s, e))
  {
    match e
    case Enter(_, _) => EnterKeeps(s, e);
    case Finish(_, _) => FinishKeeps(s, e);
    case _ => WaiterKeeps(s, e);
  }

  lemma {:induction false} RunKeeps(s: State, events: seq<Event>)
    requires Inv(s) && Runs(s, events)
    ensures Inv(After(s, events))
    decreases events
  {
    if events != [] {
      StepKeeps(s, events[0]);
      RunKeeps(Apply(s, events[0]), events[1..]);
    }
  }

  ghost predicate Fills(s: State, c: Caller, key: Fingerprint)
  {
    exists id: nat :: Owner(s, c, id) && id < |s.flights| && s.flights[id].key == key
  }

  /**
   * In every interleaving at most one caller runs the fill of a fingerprint, and the map has an entry
   * for a fingerprint exactly while someone does: a flight that finished, failed or panicked leaves none.
   */
  lemma OneOwnerPerFingerprint(s: State, events: seq<Event>, key: Fingerprint)
    requires Initial(s) && Runs(s, events)
    ensures forall c, d :: Fills(After(s, events), c, key) && Fills(After(s, events), d, key) ==> c == d
    ensures key in After(s, events).current <==> exists c :: Fills(After(s, events), c, key)
  {
    RunKeeps(s, events);
    var t := After(s, events);
    forall c, id: nat | Owner(t, c, id) && id < |t.flights| && t.flights[id].key == key
      ensures key in t.current && t.current[key] == id
    {
      assert SeatOk(t, t.seats[c]);
    }
    if key in t.current {
      var id := t.current[key];
      assert Flies(t, id);
      var c :| Owner(t, c, id);
      assert Fills(t, c, key);
    }
  }

  // A flight keeps its fingerprint, and its answer once it has one.
  predicate Settles(before: Flight, after: Flight)
  {
    after.key == before.key && (before.Landed? ==> after == before)
  }

  lemma {:induction false} FlightsSettleOnce(s: State, events: seq<Event>, id: FlightId)
    requires Inv(s) && Runs(s, events) && id < |s.flights|
    ensures id < |After(s, events).flights| && Settles(s.flights[id], After(s, events).flights[id])
    decreases events
  {
    if events != [] {
      StepKeeps(s, events[0]);
      FlightsSettleOnce(Apply(s, events[0]), events[1..], id);
    }
  }

  /**
   * A caller that joins a flight and stays gets exactly the answer that flight's owner settled,
   * however many later flights the same fingerprint has had by then.
   */
  lemma WaiterGetsItsOwnFlight(s: State, owner: Caller, fill: Fill, between: seq<Event>, waiter: Caller)
    requires Inv(s) && Enabled(s, Finish(owner, fill))
    requires waiter in s.seats && s.seats[waiter] == Waits(s.seats[owner].flight)
    requires Runs(Apply(s, Finish(owner, fill)), between)
    requires Enabled(After(Apply(s, Finish(owner, fill)), between), Receive(waiter))
    requires After(Apply(s, Finish(owner, fill)), between).seats[waiter] == s.seats[waiter]
    ensures var t := Apply(After(Apply(s, Finish(owner, fill)), between), Receive(waiter));
            && t.seats[waiter] == Left(s.seats[owner].flight, Settled(s.limit, fill), true)
            && Apply(s, Finish(owner, fill)).seats[owner] == Left(s.seats[owner].flight, Settled(s.limit, fill), false)
  {
    StepKeeps(s, Finish(owner, fill));
    FlightsSettleOnce(Apply(s, Finish(owner, fill)), between, s.seats[owner].flight);
  }

  // In every reachable state, whoever left a flight with an answer holds that flight's answer.
  lemma AnswersMatchTheirFlight(s: State, events: seq<Event>, c: Caller)
    requires Initial(s) && Runs(s, events)
    requires c in After(s, events).seats && After(s, events).seats[c].Left?
    ensures var t := After(s, events);
            var seat := t.seats[c];
            HasLanded(t, seat.flight) && t.flights[seat.flight].answer == seat.answer
  {
    RunKeeps(s, events);
    assert SeatOk(After(s, events), After(s, events).seats[c]);
  }

  // What a caller is told of a fill: an error exactly when it failed, panicked or is too long, and else its bytes.
  predicate Tells(limit: nat, fill: Fill, answer: Answer)
  {
    && (answer.Error? <==> fill.Failed? || fill.Panicked? || (limit > 0 && |fill.response| > limit))
    && (answer.Response? ==> answer.bytes == fill.response)
    && (fill.Failed? ==> answer.reason == fill.reason)
  }

  // Some owner of this flight finished it with a fill that the answer tells of.
  ghost predicate FilledBy(s: State, events: seq<Event>, id: FlightId, answer: Answer)
    requires Runs(s, events)
    decreases events
  {
    events != [] &&
    (|| (&& events[0].Finish? && s.seats[events[0].caller].flight == id
         && Tells(s.limit, events[0].fill, answer))
     || FilledBy(Apply(s, events[0]), events[1..], id, answer))
  }

  lemma {:induction false} LandedWasFilled(s: State, events: seq<Event>, id: FlightId)
    requires Runs(s, events) && HasLanded(After(s, events), id) && !HasLanded(s, id)
    ensures FilledBy(s, events, id, After(s, events).flights[id].answer)
    decreases events
  {
    var next := Apply(s, events[0]);
    if HasLanded(next, id) {
      LandedStays(next, events[1..], id);
    } else {
      LandedWasFilled(next, events[1..], id);
    }
  }

  lemma {:induction false} LandedStays(s: State, events: seq<Event>, id: FlightId)
    requires Runs(s, events) && HasLanded(s, id)
    ensures id < |After(s, events).flights| && After(s, events).flights[id] == s.flights[id]
    decreases events
  {
    if events != [] {
      LandedStays(Apply(s, events[0]), events[1..], id);
    }
  }

  /**
   * Over every run, whoever leaves a flight with an answer, its owner or a waiter that stayed, is told of the fill
   * that some owner finished that very flight with: an error exactly when it failed, panicked or exceeds the
   * limit, and otherwise the filled bytes.
   */
  lemma EveryAnswerTellsItsFill(s: State, events: seq<Event>, c: Caller)
    requires Initial(s) && Runs(s, events)
    requires c in After(s, events).seats && After(s, events).seats[c].Left?
    ensures var seat := After(s, events).seats[c]; FilledBy(s, events, seat.flight, seat.answer)
  {
    AnswersMatchTheirFlight(s, events, c);
    LandedWasFilled(s, events, After(s, events).seats[c].flight);
  }

  ghost function KeyOf(s: State, e: Event): Fingerprint
    requires Inv(s) && Enabled(s, e)
  {
    match e
    case Enter(_, key) => key
    case _ =>
      assert SeatOk(s, s.seats[e.caller]);
      s.flights[s.seats[e.caller].flight].key
  }

  // A step for one fingerprint leaves every other fingerprint's flight alone.
  lemma OtherFingerprintsUnaffected(s: State, e: Event, key: Fingerprint)
    requires Inv(s) && Enabled(s, e) && key != KeyOf(s, e)
    ensures key in Apply(s, e).current <==> key in s.current
    ensures key in s.current ==>
              var id := s.current[key];
              Apply(s, e).current[key] == id && id < |s.flights| && Apply(s, e).flights[id] == s.flights[id]
  {
  }

  // No step of the run is for this fingerprint.
  ghost predicate NoneFor(s: State, events: seq<Event>, key: Fingerprint)
    requires Inv(s) && Runs(s, events)
    decreases events
  {
    events != [] ==>
      && KeyOf(s, events[0]) != key
      && Inv(Apply(s, events[0]))
      && NoneFor(Apply(s, events[0]), events[1..], key)
  }

  /**
   * However many steps other fingerprints take, a fingerprint's entry and its flight stay as they are.
   */
  lemma {:induction false} OtherFingerprintsStay(s: State, events: seq<Event>, key: Fingerprint)
    requires Inv(s) && Runs(s, events) && NoneFor(s, events, key)
    ensures key in After(s, events).current <==> key in s.current
    ensures key in s.current ==>
              var id := s.current[key];
              && After(s, events).current[key] == id && id < |s.flights| <= |After(s, events).flights|
              && After(s, events).flights[id] == s.flights[id]
    decreases events
  {
    if events != [] {
      StepKeeps(s, events[0]);
      OtherFingerprintsUnaffected(s, events[0], key);
      OtherFingerprintsStay(Apply(s, events[0]), events[1..], key);
    }
  }
}
