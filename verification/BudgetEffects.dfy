/** What one reservation and one settlement do to a window's ledger, after any history
    (golang/storage/memory/admission.go). */
module BudgetEffects {
  import opened Integers
  import opened BudgetWindow
  import opened BudgetHistory

  // The buckets hold exactly what the grants charge, and no grant is negative.
  ghost predicate Balanced(ledger: Ledger)
  {
    && (forall i :: 0 <= i < |ledger.grants| ==> ledger.grants[i].amount >= 0)
    && (forall first, last :: Matches(ledger, first, last))
  }

  lemma GrantMatches(ledger: Ledger, grant: Grant, first: int, last: int)
    requires Matches(ledger, first, last)
    ensures Sum(Charge(ledger.buckets, grant.bucket, grant.amount), first, last) ==
            Booked(ledger.grants + [grant], first, last)
  {
    SumCharge(ledger.buckets, grant.bucket, grant.amount, first, last);
    assert (ledger.grants + [grant])[..|ledger.grants|] == ledger.grants;
  }

  lemma AskBalances(window: Window, ledger: Ledger, quoted: int, at: int, amount: int)
    requires window.Valid() && Balanced(ledger) && Possible(ledger, Ask(quoted, at, amount))
    ensures Balanced(Apply(window, ledger, Ask(quoted, at, amount)))
  {
    hide Last, Countable, Allows, Sum, Booked, Charge;
    var next := Apply(window, ledger, Ask(quoted, at, amount));
    forall first, last
      ensures Matches(next, first, last)
    {
      assert Matches(ledger, first, last);
      if next.grants != ledger.grants {
        GrantMatches(ledger, Grant(at, Last(window, quoted), amount), first, last);
      }
    }
  }

  lemma UpdateMatches(ledger: Ledger, i: nat, actual: int, first: int, last: int)
    requires i < |ledger.grants| && Matches(ledger, first, last)
    ensures var grant := ledger.grants[i];
            Sum(Charge(ledger.buckets, grant.bucket, actual - grant.amount), first, last) ==
            Booked(ledger.grants[i := grant.(amount := actual)], first, last)
  {
    SumCharge(ledger.buckets, ledger.grants[i].bucket, actual - ledger.grants[i].amount, first, last);
    BookedUpdate(ledger.grants, i, actual, first, last);
  }

  lemma SettleBalances(window: Window, ledger: Ledger, i: nat, actual: int)
    requires window.Valid() && Balanced(ledger) && Possible(ledger, Settle(i, actual))
    ensures Balanced(Apply(window, ledger, Settle(i, actual)))
  {
    hide Sum, Booked, Charge;
    if Settles(ledger, ledger.grants[i], actual) {
      var next := Apply(window, ledger, Settle(i, actual));
      forall first, last
        ensures Matches(next, first, last)
      {
        assert Matches(ledger, first, last);
        UpdateMatches(ledger, i, actual, first, last);
      }
    }
  }

  lemma StepBalances(window: Window, ledger: Ledger, move: Move)
    requires window.Valid() && Balanced(ledger) && Possible(ledger, move)
    ensures Balanced(Apply(window, ledger, move))
  {
    hide Balanced, Possible, Apply;
    match move
    case Ask(quoted, at, amount) => AskBalances(window, ledger, quoted, at, amount);
    case Settle(i, actual) => SettleBalances(window, ledger, i, actual);
  }

  lemma {:induction false} RunBalances(window: Window, ledger: Ledger, moves: seq<Move>)
    requires window.Valid() && Balanced(ledger) && Runs(window, ledger, moves)
    ensures Balanced(After(window, ledger, moves))
    decreases |moves|
  {
    hide Balanced;
    if moves != [] {
      StepBalances(window, ledger, moves[0]);
      RunBalances(window, Apply(window, ledger, moves[0]), moves[1..]);
    }
  }

  lemma HistoryBalances(window: Window, clock: int, moves: seq<Move>)
    requires window.Valid() && Runs(window, Empty(clock), moves)
    ensures Balanced(After(window, Empty(clock), moves))
  {
    forall first, last
      ensures Matches(Empty(clock), first, last)
    {
      SumEmpty(first, last);
    }
    RunBalances(window, Empty(clock), moves);
  }

  // ----- one bucket -----

  lemma {:induction false} AmountIsBooked(grants: seq<Grant>, i: nat)
    requires i < |grants| && forall k :: 0 <= k < |grants| ==> grants[k].amount >= 0
    ensures 0 <= grants[i].amount <= Booked(grants, grants[i].bucket, grants[i].bucket)
  {
    var n := |grants| - 1;
    if i < n {
      AmountIsBooked(grants[..n], i);
    } else {
      NothingNegative(grants[..n], grants[i].bucket, grants[i].bucket);
    }
  }

  lemma {:induction false} NothingNegative(grants: seq<Grant>, first: int, last: int)
    requires forall k :: 0 <= k < |grants| ==> grants[k].amount >= 0
    ensures Booked(grants, first, last) >= 0
  {
    if grants != [] {
      NothingNegative(grants[..|grants| - 1], first, last);
    }
  }

  lemma BucketIsBooked(ledger: Ledger, index: int)
    requires Balanced(ledger)
    ensures At(ledger.buckets, index) == Booked(ledger.grants, index, index) >= 0
  {
    assert Matches(ledger, index, index);
    assert Sum(ledger.buckets, index + 1, index) == 0;
    NothingNegative(ledger.grants, index, index);
  }

  // ----- settlements -----

  /** After any history a settlement takes effect exactly when its bucket stays in range, and then what was spent in
      an interval changes by the difference exactly when the reservation was granted in it, and nothing else does. */
  lemma SettlementIsExact(window: Window, clock: int, moves: seq<Move>, i: nat, actual: int, from: int, to: int)
    requires window.Valid() && Runs(window, Empty(clock), moves)
    requires i < |After(window, Empty(clock), moves).grants| && 0 <= actual
    ensures var ledger := After(window, Empty(clock), moves);
            var grant, next := ledger.grants[i], Apply(window, ledger, Settle(i, actual));
            var change := actual - grant.amount;
            if At(ledger.buckets, grant.bucket) + change <= SAFE_LIMIT then
              && next.grants == ledger.grants[i := grant.(amount := actual)]
              && next.buckets == ledger.buckets[grant.bucket := At(ledger.buckets, grant.bucket) + change]
              && next.clock == ledger.clock
              && Spent(next.grants, from, to) ==
                 Spent(ledger.grants, from, to) + if from <= grant.at <= to then change else 0
            else next == ledger
  {
    hide Sum, Booked, Spent, Matches, Runs, After;
    HistoryBalances(window, clock, moves);
    var ledger := After(window, Empty(clock), moves);
    AmountIsBooked(ledger.grants, i);
    BucketIsBooked(ledger, ledger.grants[i].bucket);
    SpentUpdate(ledger.grants, i, actual, from, to);
  }

  // ----- reservations -----

  lemma ActiveIsCounted(window: Window, ledger: Ledger, at: int)
    requires window.Valid() && Balanced(ledger)
    ensures NonNegative(ledger.buckets, First(window, at), Last(window, at)) && Active(window, ledger, at) >= 0
  {
    forall index | index in ledger.buckets
      ensures ledger.buckets[index] >= 0
    {
      BucketIsBooked(ledger, index);
    }
    assert Matches(ledger, First(window, at), Last(window, at));
    NothingNegative(ledger.grants, First(window, at), Last(window, at));
  }

  // What the window still holds is exactly what was booked in the buckets it reaches.
  function Held(window: Window, ledger: Ledger, at: int): int
    requires window.Valid()
  {
    Booked(ledger.grants, FloorDiv(at - window.duration, window.bucket), FloorDiv(at, window.bucket))
  }

  /** After any history a reservation is granted exactly when it fits under the limit with what the window holds, and
      its bucket stays in range, and then it is charged in full to the bucket it was quoted in. */
  lemma ReservationIsExact(window: Window, clock: int, moves: seq<Move>, quoted: int, at: int, amount: int)
    requires window.Valid() && 0 <= window.limit <= SAFE_LIMIT && Runs(window, Empty(clock), moves)
    requires Possible(After(window, Empty(clock), moves), Ask(quoted, at, amount))
    ensures var ledger := After(window, Empty(clock), moves);
            var next, bucket := Apply(window, ledger, Ask(quoted, at, amount)), FloorDiv(quoted, window.bucket);
            if 0 <= amount <= window.limit - Held(window, ledger, at)
               && Booked(ledger.grants, bucket, bucket) + amount <= SAFE_LIMIT
            then
              && next.grants == ledger.grants + [Grant(at, bucket, amount)]
              && next.buckets == ledger.buckets[bucket := At(ledger.buckets, bucket) + amount]
              && next.clock == at && next.excess == ledger.excess
            else next == ledger.(clock := at)
  {
    hide FloorDiv, Sum, Booked, Runs, After;
    HistoryBalances(window, clock, moves);
    var ledger := After(window, Empty(clock), moves);
    ActiveIsCounted(window, ledger, at);
    assert Matches(ledger, First(window, at), Last(window, at));
    BucketIsBooked(ledger, Last(window, quoted));
  }
}
