/**
 * Walking a quoted plan: skips, attempts and re-reservations for the candidates that remain.
 *
 * What adapters, the provider and the store answer for each candidate is a script; the plan decides
 * from it who is tried and what is held while they are.
 */
module PlanCoverage {
  import opened Reservations
  import opened Envelope

  // What happens when the plan reaches a candidate.
  datatype Step =
    | Canceled
    | Unavailable
    | CompileRejected
    | Pending
    | Succeeded
    | FailedUnmarked
    | FailedUncertain
    | FailedForGood
    | Rejected(storeFails: bool, denied: bool)
  {
    // The provider is invoked.
    predicate Invokes() { !Canceled? && !Unavailable? && !CompileRejected? }
  }

  datatype Held = Held(micro: int, usd: int, reservations: seq<WindowReservation>)

  datatype Attempt = Attempt(index: nat, held: Held)

  datatype End =
    | EndCanceled
    | EndFailed
    | EndPending
    | EndCompleted
    | EndDenied
    | EndStoreUnavailable
    | EndNothingDispatched

  // What a reservation for these candidates holds.
  predicate ReservedFor(held: Held, candidates: seq<Candidate>)
  {
    && held.micro == MaxMicro(candidates)
    && held.usd == MaxUsd(candidates)
    && IsAggregate(AllReservations(candidates), held.usd, held.reservations)
  }

  predicate Reserves(held: Held, r: WindowReservation)
  {
    exists v <- held.reservations :: v.key == r.key && r.amount <= v.amount && r.amountUsd <= v.amountUsd
  }

  // The scalar and each window the candidate matches are at least its own estimate.
  predicate Covers(held: Held, c: Candidate)
  {
    && c.micro <= held.micro
    && c.usd <= held.usd
    && forall r <- c.reservations :: Reserves(held, r)
  }

  lemma ReservationCoversEach(held: Held, candidates: seq<Candidate>, c: Candidate)
    requires AllQuoted(candidates) && ReservedFor(held, candidates) && c in candidates
    ensures Covers(held, c)
  {
    forall r | r in c.reservations
      ensures Reserves(held, r)
    {
      assert Quoted(c) && Matches(c, r.key);
      MatchedHasEntry(candidates, held.reservations, c, r.key);
      var v :| v in held.reservations && v.key == r.key;
      EntryCoversItsCandidates(candidates, held.reservations, v);
    }
  }

  // The maxima and the merged vector of a plan.
  method Quote(candidates: seq<Candidate>) returns (held: Held)
    ensures ReservedFor(held, candidates)
  {
    var micro, usd := 0, 0;
    for i := 0 to |candidates|
      invariant micro == MaxMicro(candidates[..i]) && usd == MaxUsd(candidates[..i])
    {
      assert candidates[..i + 1][..i] == candidates[..i];
      if candidates[i].micro > micro {
        micro := candidates[i].micro;
      }
      if candidates[i].usd > usd {
        usd := candidates[i].usd;
      }
    }
    assert candidates[..|candidates|] == candidates;
    var reservations := AggregateReservations(Vectors(candidates), usd);
    held := Held(micro, usd, reservations);
  }

  // Everyone from `from` on is covered.
  predicate CoversFrom(held: Held, candidates: seq<Candidate>, from: nat)
  {
    forall i :: from <= i < |candidates| ==> Covers(held, candidates[i])
  }

  lemma ReservationCoversRest(held: Held, candidates: seq<Candidate>, from: nat)
    requires AllQuoted(candidates) && from <= |candidates| && ReservedFor(held, candidates[from..])
    ensures CoversFrom(held, candidates, from)
  {
    forall i | from <= i < |candidates|
      ensures Covers(held, candidates[i])
    {
      assert candidates[from..][i - from] == candidates[i];
      ReservationCoversEach(held, candidates[from..], candidates[i]);
    }
  }

  // The plan moves past a candidate only if it was unavailable, failed before anything was marked, or
  // was rejected with someone left to try and the rest could be reserved again.
  predicate MovesPast(script: seq<Step>, limit: nat, i: nat)
    requires i < |script|
  {
    var step := script[i];
    || step.Unavailable?
    || step.FailedUnmarked?
    || (step.Rejected? && !step.storeFails && !step.denied && i + 1 < |script| && i + 1 < limit)
  }

  predicate Passed(script: seq<Step>, limit: nat, index: nat)
    requires index <= |script|
  {
    forall i: nat :: i < index ==> MovesPast(script, limit, i)
  }

  function Min(a: nat, b: nat): nat
  {
    if a < b then a else b
  }

  // The candidate is tried: the plan gets there within the limit, and the provider is invoked.
  predicate Tried(script: seq<Step>, limit: nat, i: nat)
  {
    i < |script| && i < limit && Passed(script, limit, i) && script[i].Invokes()
  }

  // The plan ends at this candidate.
  predicate Stops(script: seq<Step>, limit: nat, i: nat)
  {
    i < |script| && i < limit && Passed(script, limit, i) && !MovesPast(script, limit, i)
  }

  // How a plan ends at a step it does not move past, with or without someone left to try.
  predicate EndsAs(end: End, step: Step, someoneLeft: bool)
  {
    && (end.EndCompleted? <==> step.Succeeded?)
    && (end.EndPending? <==> step.Pending?)
    && (end.EndCanceled? <==> step.Canceled?)
    && (end.EndStoreUnavailable? <==> step.Rejected? && someoneLeft && step.storeFails)
    && (end.EndDenied? <==> step.Rejected? && someoneLeft && !step.storeFails && step.denied)
    && (end.EndFailed? <==>
        || step.CompileRejected? || step.FailedUncertain? || step.FailedForGood?
        || (step.Rejected? && !someoneLeft))
  }

  // Where the reservation held at a candidate begins: behind the last rejected one.
  function Since(script: seq<Step>, index: nat): (from: nat)
    requires index <= |script|
    ensures from <= index
  {
    if index == 0 || script[index - 1].Rejected? then index else Since(script, index - 1)
  }

  // One attempt: what is held is the reservation for everyone since the last rejection, and covers the candidate.
  predicate AttemptOk(candidates: seq<Candidate>, script: seq<Step>, attempt: Attempt)
    requires |script| == |candidates|
  {
    && attempt.index < |candidates|
    && Covers(attempt.held, candidates[attempt.index])
    && ReservedFor(attempt.held, candidates[Since(script, attempt.index)..])
  }

  predicate TraceOk(candidates: seq<Candidate>, script: seq<Step>, attempts: seq<Attempt>)
    requires |script| == |candidates|
  {
    && (forall a <- attempts :: AttemptOk(candidates, script, a))
    && (forall j, k :: 0 <= j < k < |attempts| ==> attempts[j].index < attempts[k].index)
  }

  predicate HasAttempt(attempts: seq<Attempt>, index: nat)
  {
    exists a <- attempts :: a.index == index
  }

  predicate TriedExactly(script: seq<Step>, limit: nat, attempts: seq<Attempt>)
  {
    forall i: nat :: i < |script| ==> (HasAttempt(attempts, i) <==> Tried(script, limit, i))
  }

  // Nothing dispatched when everyone within the limit was passed over, and else what the stop says.
  predicate EndsRight(script: seq<Step>, limit: nat, end: End)
  {
    && (end.EndNothingDispatched? <==> Passed(script, limit, Min(|script|, limit)))
    && forall i: nat :: i < |script| && Stops(script, limit, i) ==>
         EndsAs(end, script[i], i + 1 < |script| && i + 1 < limit)
  }

  // Exactly the candidates below this one that are invoked have been.
  predicate TriedBelow(script: seq<Step>, attempts: seq<Attempt>, index: nat)
  {
    && (forall a <- attempts :: a.index < index)
    && (forall i: nat :: i < index && i < |script| ==> (HasAttempt(attempts, i) <==> script[i].Invokes()))
  }

  lemma HeldIsOk(candidates: seq<Candidate>, script: seq<Step>, index: nat, held: Held)
    requires AllQuoted(candidates) && |script| == |candidates| && index < |candidates|
    requires ReservedFor(held, candidates[Since(script, index)..])
    ensures AttemptOk(candidates, script, Attempt(index, held))
  {
    ReservationCoversRest(held, candidates, Since(script, index));
  }

  lemma AttemptAdded(candidates: seq<Candidate>, script: seq<Step>, attempts: seq<Attempt>, next: Attempt)
    requires |script| == |candidates| && TraceOk(candidates, script, attempts)
    requires TriedBelow(script, attempts, next.index) && AttemptOk(candidates, script, next)
    requires script[next.index].Invokes()
    ensures TraceOk(candidates, script, attempts + [next]) && TriedBelow(script, attempts + [next], next.index + 1)
  {
    hide AttemptOk;
    var more := attempts + [next];
    assert next in more;
    forall i: nat | i <= next.index
      ensures HasAttempt(more, i) <==> HasAttempt(attempts, i) || i == next.index
    {
      if HasAttempt(attempts, i) {
        var a :| a in attempts && a.index == i;
        assert a in more;
      }
    }
  }

  lemma NotAttempted(script: seq<Step>, attempts: seq<Attempt>, index: nat)
    requires index < |script| && TriedBelow(script, attempts, index) && !script[index].Invokes()
    ensures TriedBelow(script, attempts, index + 1)
  {
    assert !HasAttempt(attempts, index);
  }

  // The plan stops at one candidate at most, and at none exactly when it passes everyone within the limit.
  lemma {:induction false} StopsOnce(script: seq<Step>, limit: nat, n: nat)
    requires n <= |script| && n <= limit
    ensures forall i: nat, j: nat :: Stops(script, limit, i) && Stops(script, limit, j) ==> i == j
    ensures !Passed(script, limit, n) ==> exists i: nat :: i < n && Stops(script, limit, i)
  {
    if n > 0 {
      StopsOnce(script, limit, n - 1);
      assert Passed(script, limit, n - 1) && !Passed(script, limit, n) ==> Stops(script, limit, n - 1);
    }
  }

  predicate Wins(script: seq<Step>, a: Attempt)
  {
    a.index < |script| && script[a.index].Succeeded?
  }

  // A plan completes exactly when one of its attempts succeeds.
  lemma CompletesOnAWin(script: seq<Step>, limit: nat, attempts: seq<Attempt>, end: End)
    requires TriedExactly(script, limit, attempts) && EndsRight(script, limit, end)
    ensures end.EndCompleted? <==> exists a <- attempts :: Wins(script, a)
  {
    forall a | a in attempts && Wins(script, a)
      ensures end.EndCompleted?
    {
      assert HasAttempt(attempts, a.index) && Tried(script, limit, a.index);
      assert Stops(script, limit, a.index);
    }
    if end.EndCompleted? {
      StopsOnce(script, limit, Min(|script|, limit));
      var i: nat :| i < |script| && Stops(script, limit, i);
      assert Tried(script, limit, i) && HasAttempt(attempts, i);
      var a :| a in attempts && a.index == i;
      assert Wins(script, a);
    }
  }

  // Where the plan stops, everything that is tried has been.
  lemma EndsHere(script: seq<Step>, limit: nat, attempts: seq<Attempt>, index: nat, end: End)
    requires index < |script| && index < limit && Passed(script, limit, index) && !MovesPast(script, limit, index)
    requires TriedBelow(script, attempts, index + 1)
    requires EndsAs(end, script[index], index + 1 < |script| && index + 1 < limit)
    ensures TriedExactly(script, limit, attempts) && EndsRight(script, limit, end)
  {
    forall i: nat
      ensures HasAttempt(attempts, i) <==> Tried(script, limit, i)
    {
      if i <= index {
        assert Passed(script, limit, i);
      } else {
        assert i <= |script| ==> !Passed(script, limit, i);
      }
    }
    assert Stops(script, limit, index);
    StopsOnce(script, limit, index);
  }

  lemma NothingYet(candidates: seq<Candidate>, script: seq<Step>, limit: nat, begun: Held)
    requires |script| == |candidates| && ReservedFor(begun, candidates)
    ensures ReservedFor(begun, candidates[Since(script, 0)..]) && Passed(script, limit, 0)
    ensures TraceOk(candidates, script, []) && TriedBelow(script, [], 0)
  {
    assert candidates[0..] == candidates;
  }

  lemma MovesOn(script: seq<Step>, limit: nat, index: nat)
    requires index < |script| && Passed(script, limit, index) && MovesPast(script, limit, index)
    ensures Passed(script, limit, index + 1)
    ensures Since(script, index + 1) == if script[index].Rejected? then index + 1 else Since(script, index)
  {
  }

  lemma AllPassed(script: seq<Step>, limit: nat, attempts: seq<Attempt>, index: nat)
    requires index == Min(|script|, limit) && Passed(script, limit, index) && TriedBelow(script, attempts, index)
    ensures TriedExactly(script, limit, attempts) && EndsRight(script, limit, EndNothingDispatched)
  {
    forall i: nat
      ensures HasAttempt(attempts, i) <==> Tried(script, limit, i)
    {
      assert i < index ==> Passed(script, limit, i);
    }
  }

  /**
   * Exactly the candidates are tried that the plan reaches, in order and once each: within `maxAttempts`,
   * with everyone before them passed over. At every attempt what is held is the reservation for everyone
   * since the last rejection, and covers the candidate's own estimate. The first candidate the plan does
   * not move past decides how it ends.
   */
  method DispatchPlan(candidates: seq<Candidate>, script: seq<Step>, maxAttempts: nat, begun: Held)
    returns (attempts: seq<Attempt>, end: End)
    requires AllQuoted(candidates) && |script| == |candidates| && ReservedFor(begun, candidates)
    ensures TraceOk(candidates, script, attempts)
    ensures TriedExactly(script, maxAttempts, attempts) && EndsRight(script, maxAttempts, end)
    ensures end.EndCompleted? <==> exists a <- attempts :: Wins(script, a)
  {
    hide ReservedFor, AllQuoted, AttemptOk, TraceOk, TriedBelow, TriedExactly, EndsRight, Passed, Since;
    attempts := [];
    var held := begun;
    NothingYet(candidates, script, maxAttempts, begun);
    var index := 0;
    while index < |candidates| && index < maxAttempts
      invariant index <= |candidates| && index <= maxAttempts
      invariant ReservedFor(held, candidates[Since(script, index)..])
      invariant Passed(script, maxAttempts, index)
      invariant TraceOk(candidates, script, attempts) && TriedBelow(script, attempts, index)
    {
      var step := script[index];
      if step.Canceled? || step.CompileRejected? {
        end := if step.Canceled? then EndCanceled else EndFailed;
        NotAttempted(script, attempts, index);
        EndsHere(script, maxAttempts, attempts, index, end);
        CompletesOnAWin(script, maxAttempts, attempts, end);
        return;
      }
      if step.Unavailable? {
        NotAttempted(script, attempts, index);
        MovesOn(script, maxAttempts, index);
        index := index + 1;
        continue;
      }
      HeldIsOk(candidates, script, index, held);
      AttemptAdded(candidates, script, attempts, Attempt(index, held));
      attempts := attempts + [Attempt(index, held)];
      if !step.FailedUnmarked? {
        held, end := AfterAttempt(candidates, script, maxAttempts, index, held);
        if end != EndNothingDispatched {
          EndsHere(script, maxAttempts, attempts, index, end);
          CompletesOnAWin(script, maxAttempts, attempts, end);
          return;
        }
      }
      MovesOn(script, maxAttempts, index);
      index := index + 1;
    }
    AllPassed(script, maxAttempts, attempts, index);
    end := EndNothingDispatched;
    CompletesOnAWin(script, maxAttempts, attempts, end);
  }

  // What an attempt that was marked leads to: the end of the plan, or a reservation for the rest.
  method AfterAttempt(candidates: seq<Candidate>, script: seq<Step>, maxAttempts: nat, index: nat, held: Held)
    returns (next: Held, end: End)
    requires AllQuoted(candidates) && |script| == |candidates| && index < |script|
    requires script[index].Invokes() && !script[index].FailedUnmarked?
    ensures end == EndNothingDispatched <==> MovesPast(script, maxAttempts, index)
    ensures end == EndNothingDispatched ==> ReservedFor(next, candidates[index + 1..])
    ensures end != EndNothingDispatched ==>
              EndsAs(end, script[index], index + 1 < |script| && index + 1 < maxAttempts)
  {
    next := held;
    match script[index]
    case Pending => end := EndPending;
    case Succeeded => end := EndCompleted;
    case Rejected(storeFails, denied) =>
      var remaining := candidates[index + 1..];
      if remaining == [] || index + 1 >= maxAttempts {
        return next, EndFailed;
      }
      next := Quote(remaining);
      if storeFails {
        return next, EndStoreUnavailable;
      }
      if denied {
        return next, EndDenied;
      }
      end := EndNothingDispatched;
    case _ => end := EndFailed;
  }
}
