/** Reservations over time against one window: what the bucket check buys
    (golang/budget/window.go, golang/engine/generate.go reservations, golang/storage/memory/admission.go
    checkReservations, addReservation and reconcile).

    A reservation is quoted at one instant, which fixes its bucket, and checked and granted at a later
    one, which decides what is active. A fallback re-sends the buckets of the original quote. */
module BudgetHistory {
  import opened Integers
  import opened BudgetWindow

  datatype Grant = Grant(at: int, bucket: int, amount: int)

  // The store's buckets, every accepted reservation with its current charge, the clock, and how
  // much settlements have charged beyond their reservations.
  datatype Ledger = Ledger(buckets: Buckets, grants: seq<Grant>, clock: int, excess: nat)

  datatype Move =
    | Ask(quoted: int, at: int, amount: int)
    | Settle(grant: nat, actual: int)

  function Empty(clock: int): Ledger
  {
    Ledger(map[], [], clock, 0)
  }

  function Charge(buckets: Buckets, index: int, amount: int): Buckets
  {
    buckets[index := At(buckets, index) + amount]
  }

  // The store's clock does not run backwards, a quote precedes its check, and a settlement names an
  // accepted reservation.
  predicate Possible(ledger: Ledger, move: Move)
  {
    match move
    case Ask(quoted, at, _) => ledger.clock <= at && quoted <= at
    case Settle(grant, actual) => grant < |ledger.grants| && 0 <= actual
  }

  // CanReserve says yes at the instant of the check, and the quoted bucket can take the amount.
  predicate Accepts(window: Window, ledger: Ledger, quoted: int, at: int, amount: int)
    requires window.Valid()
  {
    && Countable(window, ledger.buckets, at)
    && 0 <= amount <= SAFE_LIMIT
    && Allows(window, ledger.buckets, amount, at)
    && At(ledger.buckets, Last(window, quoted)) + amount <= SAFE_LIMIT
  }

  // The bucket holds the reservation and can take the actual charge instead.
  predicate Settles(ledger: Ledger, grant: Grant, actual: int)
  {
    grant.amount <= At(ledger.buckets, grant.bucket) &&
    At(ledger.buckets, grant.bucket) - grant.amount + actual <= SAFE_LIMIT
  }

  function Apply(window: Window, ledger: Ledger, move: Move): Ledger
    requires window.Valid() && Possible(ledger, move)
  {
    match move
    case Ask(quoted, at, amount) =>
      if Accepts(window, ledger, quoted, at, amount) then
        var bucket := Last(window, quoted);
        Ledger(Charge(ledger.buckets, bucket, amount), ledger.grants + [Grant(at, bucket, amount)], at, ledger.excess)
      else ledger.(clock := at)
    case Settle(i, actual) =>
      var grant := ledger.grants[i];
      if Settles(ledger, grant, actual) then
        Ledger(Charge(ledger.buckets, grant.bucket, actual - grant.amount),
               ledger.grants[i := grant.(amount := actual)], ledger.clock,
               ledger.excess + if actual > grant.amount then actual - grant.amount else 0)
      else ledger
  }

  ghost predicate Runs(window: Window, ledger: Ledger, moves: seq<Move>)
    requires window.Valid()
    decreases |moves|
  {
    moves == [] || (Possible(ledger, moves[0]) && Runs(window, Apply(window, ledger, moves[0]), moves[1..]))
  }

  ghost function After(window: Window, ledger: Ledger, moves: seq<Move>): Ledger
    requires window.Valid() && Runs(window, ledger, moves)
    decreases |moves|
  {
    if moves == [] then ledger else After(window, Apply(window, ledger, moves[0]), moves[1..])
  }

  // ----- what was charged in a stretch of time, and in a stretch of buckets -----

  function Spent(grants: seq<Grant>, from: int, to: int): int
  {
    if grants == [] then 0
    else
      var last := grants[|grants| - 1];
      Spent(grants[..|grants| - 1], from, to) + if from <= last.at <= to then last.amount else 0
  }

  function Booked(grants: seq<Grant>, first: int, last: int): int
  {
    if grants == [] then 0
    else
      var grant := grants[|grants| - 1];
      Booked(grants[..|grants| - 1], first, last) + if first <= grant.bucket <= last then grant.amount else 0
  }

  // How many buckets a grant's bucket lies before the bucket of the instant it was granted.
  function Lag(window: Window, grant: Grant): int
    requires window.Valid()
  {
    Last(window, grant.at) - grant.bucket
  }

  predicate Charged(window: Window, grants: seq<Grant>, clock: int, lag: int)
    requires window.Valid()
  {
    forall i :: 0 <= i < |grants| ==>
      0 <= grants[i].amount && grants[i].at <= clock && 0 <= Lag(window, grants[i]) <= lag
  }

  // Every grant of the interval was booked in the range.
  lemma {:induction false} SpentIsBooked(
    window: Window, grants: seq<Grant>, lag: int, from: int, to: int, first: int, last: int)
    requires window.Valid() && Charged(window, grants, to, lag)
    requires first <= Last(window, from) - lag && Last(window, to) <= last
    ensures Spent(grants, from, to) <= Booked(grants, first, last)
  {
    if grants != [] {
      var grant := grants[|grants| - 1];
      SpentIsBooked(window, grants[..|grants| - 1], lag, from, to, first, last);
      if from <= grant.at <= to {
        FloorMonotone(from, grant.at, window.bucket);
        FloorMonotone(grant.at, to, window.bucket);
        assert 0 <= Lag(window, grant) <= lag;
      }
    }
  }

  // A later end adds nothing when nothing was granted after the earlier one.
  lemma {:induction false} SpentUpToNow(window: Window, grants: seq<Grant>, lag: int, from: int, clock: int, to: int)
    requires window.Valid() && Charged(window, grants, clock, lag) && clock <= to
    ensures Spent(grants, from, to) == Spent(grants, from, clock)
  {
    if grants != [] {
      SpentUpToNow(window, grants[..|grants| - 1], lag, from, clock, to);
    }
  }

  lemma {:induction false} SpentUpdate(grants: seq<Grant>, i: nat, actual: int, from: int, to: int)
    requires i < |grants|
    ensures Spent(grants[i := grants[i].(amount := actual)], from, to) ==
            Spent(grants, from, to) + if from <= grants[i].at <= to then actual - grants[i].amount else 0
  {
    var n := |grants| - 1;
    var updated := grants[i := grants[i].(amount := actual)];
    if i < n {
      SpentUpdate(grants[..n], i, actual, from, to);
      assert updated[..n] == grants[..n][i := grants[i].(amount := actual)];
    } else {
      assert updated[..n] == grants[..n];
    }
  }

  lemma {:induction false} BookedUpdate(grants: seq<Grant>, i: nat, actual: int, first: int, last: int)
    requires i < |grants|
    ensures Booked(grants[i := grants[i].(amount := actual)], first, last) ==
            Booked(grants, first, last) + if first <= grants[i].bucket <= last then actual - grants[i].amount else 0
  {
    var n := |grants| - 1;
    var updated := grants[i := grants[i].(amount := actual)];
    if i < n {
      BookedUpdate(grants[..n], i, actual, first, last);
      assert updated[..n] == grants[..n][i := grants[i].(amount := actual)];
    } else {
      assert updated[..n] == grants[..n];
    }
  }

  lemma {:induction false} SumCharge(buckets: Buckets, index: int, amount: int, first: int, last: int)
    ensures Sum(Charge(buckets, index, amount), first, last) ==
            Sum(buckets, first, last) + if first <= index <= last then amount else 0
    decreases last - first + 1
  {
    if first <= last {
      SumCharge(buckets, index, amount, first + 1, last);
    }
  }

  // ----- the invariant -----

  // The buckets hold what the accepted reservations charge.
  predicate Matches(ledger: Ledger, first: int, last: int)
  {
    Sum(ledger.buckets, first, last) == Booked(ledger.grants, first, last)
  }

  // Intervals shorter than the window by the lag are within the limit.
  predicate Within(window: Window, ledger: Ledger, from: int, to: int)
  {
    Spent(ledger.grants, from, to) <= window.limit + ledger.excess
  }

  predicate Short(window: Window, lag: int, from: int, to: int)
  {
    to - from + lag * window.bucket <= window.duration
  }

  ghost predicate Inv(window: Window, lag: int, ledger: Ledger)
    requires window.Valid()
  {
    && Charged(window, ledger.grants, ledger.clock, lag)
    && (forall first, last :: Matches(ledger, first, last))
    && (forall from, to :: Short(window, lag, from, to) ==> Within(window, ledger, from, to))
  }

  lemma FloorShift(value: int, divisor: int, steps: int)
    requires divisor > 0
    ensures FloorDiv(value - steps * divisor, divisor) == FloorDiv(value, divisor) - steps
  {
    FloorDivIsFloor(value, divisor);
    var q := FloorDiv(value, divisor);
    assert divisor * (q - steps) == divisor * q - steps * divisor;
    assert divisor * (q - steps + 1) == divisor * (q + 1) - steps * divisor;
    FloorUnique(value - steps * divisor, divisor, q - steps);
  }

  // The range of a check reaches back far enough for every lagging grant of a short interval.
  lemma RangeReachesBack(window: Window, lag: nat, from: int, to: int, at: int)
    requires window.Valid() && Short(window, lag, from, to) && at <= to
    ensures First(window, at) <= Last(window, from) - lag
  {
    FloorMonotone(at - window.duration, from - lag * window.bucket, window.bucket);
    FloorShift(from, window.bucket, lag);
  }

  // An accepted reservation closes every short interval it falls into at or below the limit.
  lemma AskKeepsLimit(window: Window, lag: nat, ledger: Ledger, grant: Grant, from: int, to: int)
    requires window.Valid() && Inv(window, lag, ledger) && ledger.clock <= grant.at
    requires NonNegative(ledger.buckets, First(window, grant.at), Last(window, grant.at))
    requires Allows(window, ledger.buckets, grant.amount, grant.at)
    requires Short(window, lag, from, to)
    ensures Within(window, ledger.(grants := ledger.grants + [grant]), from, to)
  {
    var grants := ledger.grants + [grant];
    assert grants[..|grants| - 1] == ledger.grants;
    assert Within(window, ledger, from, to);
    if from <= grant.at <= to {
      SpentUpToNow(window, ledger.grants, lag, from, grant.at, to);
      RangeReachesBack(window, lag, from, to, grant.at);
      SpentIsBooked(window, ledger.grants, lag, from, grant.at, First(window, grant.at), Last(window, grant.at));
      assert Matches(ledger, First(window, grant.at), Last(window, grant.at));
    }
  }

  // The quoted bucket lies at most this many buckets before the bucket of the check.
  predicate Lagging(window: Window, lag: int, move: Move)
    requires window.Valid()
  {
    move.Ask? ==> Last(window, move.at) - Last(window, move.quoted) <= lag
  }

  lemma AskKeeps(window: Window, lag: nat, ledger: Ledger, move: Move)
    requires window.Valid() && Inv(window, lag, ledger)
    requires move.Ask? && Possible(ledger, move) && Lagging(window, lag, move)
    requires Accepts(window, ledger, move.quoted, move.at, move.amount)
    ensures Inv(window, lag, Apply(window, ledger, move))
  {
    var next := Apply(window, ledger, move);
    var grant := Grant(move.at, Last(window, move.quoted), move.amount);
    assert next.grants[..|next.grants| - 1] == ledger.grants;
    FloorMonotone(move.quoted, move.at, window.bucket);
    forall first, last
      ensures Matches(next, first, last)
    {
      SumCharge(ledger.buckets, grant.bucket, move.amount, first, last);
      assert Matches(ledger, first, last);
    }
    forall from, to | Short(window, lag, from, to)
      ensures Within(window, next, from, to)
    {
      AskKeepsLimit(window, lag, ledger, grant, from, to);
      assert Within(window, ledger.(grants := next.grants), from, to);
    }
  }

  lemma RefusalKeeps(window: Window, lag: nat, ledger: Ledger, clock: int)
    requires window.Valid() && Inv(window, lag, ledger) && ledger.clock <= clock
    ensures Inv(window, lag, ledger.(clock := clock))
  {
    var next := ledger.(clock := clock);
    forall first, last
      ensures Matches(next, first, last)
    {
      assert Matches(ledger, first, last);
    }
    forall from, to | Short(window, lag, from, to)
      ensures Within(window, next, from, to)
    {
      assert Within(window, ledger, from, to);
    }
  }

  lemma SettleKeeps(window: Window, lag: nat, ledger: Ledger, i: nat, actual: int)
    requires window.Valid() && Inv(window, lag, ledger) && i < |ledger.grants| && 0 <= actual
    requires Settles(ledger, ledger.grants[i], actual)
    ensures Inv(window, lag, Apply(window, ledger, Settle(i, actual)))
  {
    var next := Apply(window, ledger, Settle(i, actual));
    var grant := ledger.grants[i];
    forall first, last
      ensures Matches(next, first, last)
    {
      SumCharge(ledger.buckets, grant.bucket, actual - grant.amount, first, last);
      BookedUpdate(ledger.grants, i, actual, first, last);
      assert Matches(ledger, first, last);
    }
    forall from, to | Short(window, lag, from, to)
      ensures Within(window, next, from, to)
    {
      SpentUpdate(ledger.grants, i, actual, from, to);
      assert Within(window, ledger, from, to);
    }
  }

  lemma StepKeeps(window: Window, lag: nat, ledger: Ledger, move: Move)
    requires window.Valid() && Inv(window, lag, ledger) && Possible(ledger, move) && Lagging(window, lag, move)
    ensures Inv(window, lag, Apply(window, ledger, move))
  {
    match move
    case Ask(quoted, at, amount) => {
      if Accepts(window, ledger, quoted, at, amount) {
        AskKeeps(window, lag, ledger, move);
      } else {
        RefusalKeeps(window, lag, ledger, at);
      }
    }
    case Settle(i, actual) => {
      if Settles(ledger, ledger.grants[i], actual) {
        SettleKeeps(window, lag, ledger, i, actual);
      }
    }
  }

  ghost predicate AllLagging(window: Window, lag: int, moves: seq<Move>)
    requires window.Valid()
  {
    forall move <- moves :: Lagging(window, lag, move)
  }

  lemma {:induction false} RunKeeps(window: Window, lag: nat, ledger: Ledger, moves: seq<Move>)
    requires window.Valid() && Inv(window, lag, ledger) && Runs(window, ledger, moves) && AllLagging(window, lag, moves)
    ensures Inv(window, lag, After(window, ledger, moves))
    decreases |moves|
  {
    if moves != [] {
      assert moves[0] in moves;
      assert AllLagging(window, lag, moves[1..]) by {
        assert forall move <- moves[1..] :: move in moves;
      }
      StepKeeps(window, lag, ledger, moves[0]);
      RunKeeps(window, lag, Apply(window, ledger, moves[0]), moves[1..]);
    }
  }

  lemma {:induction false} SumEmpty(first: int, last: int)
    ensures Sum(map[], first, last) == 0
    decreases last - first + 1
  {
    if first <= last {
      SumEmpty(first + 1, last);
    }
  }

  lemma EmptyHolds(window: Window, lag: nat, clock: int)
    requires window.Valid() && 0 <= window.limit
    ensures Inv(window, lag, Empty(clock))
  {
    var empty := Empty(clock);
    forall first, last
      ensures Matches(empty, first, last)
    {
      SumEmpty(first, last);
    }
    assert forall from, to :: Within(window, empty, from, to);
  }

  /** Whatever is asked for and however it settles, when no quote lies more than `lag` buckets before
      its check, every closed interval shorter than the window by that many buckets holds charges of at
      most the limit, plus only what settlements charged beyond their reservation. With quotes in the
      bucket of their check this is every interval one window long. */
  lemma EveryIntervalWithinLimit(window: Window, lag: nat, clock: int, moves: seq<Move>, from: int, to: int)
    requires window.Valid() && 0 <= window.limit && Runs(window, Empty(clock), moves) && AllLagging(window, lag, moves)
    requires to - from + lag * window.bucket <= window.duration
    ensures var ledger := After(window, Empty(clock), moves);
            Spent(ledger.grants, from, to) <= window.limit + ledger.excess
  {
    EmptyHolds(window, lag, clock);
    RunKeeps(window, lag, Empty(clock), moves);
    assert Short(window, lag, from, to);
    assert Within(window, After(window, Empty(clock), moves), from, to);
  }

  // ----- a quote in an earlier bucket -----

  // The bucket whose expiry is the first instant, not before the check, at which this one has expired
  // and the window begins with a bucket.
  function LastExpired(window: Window, bucket: int, at: int): int
    requires window.Valid()
  {
    var early := FloorDiv(at - window.duration - 1, window.bucket);
    if bucket < early then early else bucket
  }

  function Forgotten(window: Window, bucket: int, at: int): int
    requires window.Valid()
  {
    Expiry(window, LastExpired(window, bucket, at))
  }

  lemma ExpiryMonotone(window: Window, early: int, late: int)
    requires window.Valid() && early <= late
    ensures Expiry(window, early) <= Expiry(window, late)
  {
    MulOrdered(window.bucket, early + 1, late + 1);
  }

  // The first expiry at or after an instant.
  lemma NextExpiry(window: Window, at: int)
    requires window.Valid()
    ensures var early := FloorDiv(at - window.duration - 1, window.bucket);
            at <= Expiry(window, early) <= at + window.duration
  {
    hide FloorDiv;
    var early := FloorDiv(at - window.duration - 1, window.bucket);
    FloorDivIsFloor(at - window.duration - 1, window.bucket);
    assert window.bucket * (early + 1) == window.bucket * early + window.bucket;
    assert (early + 1) * window.bucket == window.bucket * (early + 1);
  }

  lemma EarlierBucketExpires(window: Window, bucket: int, at: int)
    requires window.Valid() && bucket < Last(window, at)
    ensures Expiry(window, bucket) <= at + window.duration
  {
    hide FloorDiv;
    FloorDivIsFloor(at, window.bucket);
    MulOrdered(window.bucket, bucket + 1, Last(window, at));
    assert (bucket + 1) * window.bucket == window.bucket * (bucket + 1);
  }

  // A bucket before the one of the grant's instant expires while the grant is less than a window old.
  lemma ExpiresEarly(window: Window, bucket: int, at: int)
    requires window.Valid() && bucket < Last(window, at)
    ensures var t := Forgotten(window, bucket, at);
            && at <= t <= at + window.duration && bucket < First(window, t)
            && t - window.duration == First(window, t) * window.bucket
  {
    hide FloorDiv;
    var early := FloorDiv(at - window.duration - 1, window.bucket);
    var index := LastExpired(window, bucket, at);
    NextExpiry(window, at);
    EarlierBucketExpires(window, bucket, at);
    ExpiryMonotone(window, early, index);
    ExpiryIsExact(window, index, Expiry(window, index));
  }

  // Everything booked from a bucket on was granted since that bucket began.
  lemma {:induction false} BookedIsSpent(window: Window, grants: seq<Grant>, first: int, last: int, to: int)
    requires window.Valid() && Charged(window, grants, to, 0)
    ensures Booked(grants, first, last) <= Spent(grants, first * window.bucket, to)
  {
    if grants != [] {
      var grant := grants[|grants| - 1];
      BookedIsSpent(window, grants[..|grants| - 1], first, last, to);
      assert Lag(window, grant) == 0;
      if first <= grant.bucket <= last {
        FloorDivIsFloor(grant.at, window.bucket);
        MulOrdered(window.bucket, first, grant.bucket);
      }
    }
  }

  lemma {:induction false} BookedNonNegative(
    window: Window, grants: seq<Grant>, clock: int, lag: int, first: int, last: int)
    requires window.Valid() && Charged(window, grants, clock, lag)
    ensures 0 <= Booked(grants, first, last)
  {
    if grants != [] {
      BookedNonNegative(window, grants[..|grants| - 1], clock, lag, first, last);
    }
  }

  lemma BucketsNonNegative(window: Window, ledger: Ledger, first: int, last: int)
    requires window.Valid() && Inv(window, 0, ledger)
    ensures NonNegative(ledger.buckets, first, last)
  {
    forall index | first <= index <= last && index in ledger.buckets
      ensures ledger.buckets[index] >= 0
    {
      BookedNonNegative(window, ledger.grants, ledger.clock, 0, index, index);
      assert Matches(ledger, index, index);
      assert Sum(ledger.buckets, index + 1, index) == 0;
    }
  }

  lemma {:induction false} AtMostSum(buckets: Buckets, first: int, last: int)
    requires first <= last && NonNegative(buckets, first, last)
    ensures 0 <= At(buckets, last) <= Sum(buckets, first, last)
    decreases last - first
  {
    if first < last {
      AtMostSum(buckets, first + 1, last);
    } else {
      assert Sum(buckets, last + 1, last) == 0;
    }
  }

  // What the window holds at an instant.
  function Active(window: Window, ledger: Ledger, at: int): int
    requires window.Valid()
  {
    Sum(ledger.buckets, First(window, at), Last(window, at))
  }

  // At an instant where the window begins with a bucket, all it holds was granted within it.
  lemma ActiveIsSpent(window: Window, ledger: Ledger, t: int)
    requires window.Valid() && Inv(window, 0, ledger) && ledger.clock <= t
    requires t - window.duration == First(window, t) * window.bucket
    ensures Active(window, ledger, t) <= Spent(ledger.grants, t - window.duration, t) <= window.limit + ledger.excess
  {
    assert Matches(ledger, First(window, t), Last(window, t));
    BookedIsSpent(window, ledger.grants, First(window, t), Last(window, t), t);
    assert Short(window, 0, t - window.duration, t);
    assert Within(window, ledger, t - window.duration, t);
  }

  // What a stale grant leaves: nothing of it is counted when its bucket has expired.
  lemma StaleGrantIsForgotten(window: Window, ledger: Ledger, quoted: int, at: int, amount: int)
    requires window.Valid() && Inv(window, 0, ledger) && ledger.clock <= at && quoted <= at
    requires Accepts(window, ledger, quoted, at, amount) && Last(window, quoted) < Last(window, at)
    ensures var t := Forgotten(window, Last(window, quoted), at);
            var next := Apply(window, ledger, Ask(quoted, at, amount));
            && Active(window, next, t) == Active(window, ledger, t)
            && NonNegative(next.buckets, First(window, t), Last(window, t))
            && First(window, t) <= Last(window, t)
  {
    var bucket := Last(window, quoted);
    var t := Forgotten(window, bucket, at);
    ExpiresEarly(window, bucket, at);
    SumCharge(ledger.buckets, bucket, amount, First(window, t), Last(window, t));
    BucketsNonNegative(window, ledger, First(window, t), Last(window, t));
    FloorMonotone(t - window.duration, t, window.bucket);
  }

  // What is left of the limit at that instant is granted.
  lemma RoomIsGranted(window: Window, ledger: Ledger, quoted: int, at: int, amount: int)
    requires window.Valid() && 0 <= window.limit <= SAFE_LIMIT
    requires Inv(window, 0, ledger) && ledger.excess == 0 && ledger.clock <= at && quoted <= at
    requires Accepts(window, ledger, quoted, at, amount) && Last(window, quoted) < Last(window, at)
    ensures var t := Forgotten(window, Last(window, quoted), at);
            var next := Apply(window, ledger, Ask(quoted, at, amount));
            at <= t && Accepts(window, next, t, t, window.limit - Active(window, ledger, t))
  {
    var t := Forgotten(window, Last(window, quoted), at);
    var next := Apply(window, ledger, Ask(quoted, at, amount));
    ExpiresEarly(window, Last(window, quoted), at);
    StaleGrantIsForgotten(window, ledger, quoted, at, amount);
    ActiveIsSpent(window, ledger, t);
    AtMostSum(next.buckets, First(window, t), Last(window, t));
  }

  lemma SpentTwoMore(grants: seq<Grant>, one: Grant, two: Grant, from: int, to: int)
    requires from <= one.at <= to && from <= two.at <= to
    ensures Spent(grants + [one] + [two], from, to) == Spent(grants, from, to) + one.amount + two.amount
  {
    var more := grants + [one];
    assert more[..|more| - 1] == grants;
    assert (more + [two])[..|more + [two]| - 1] == more;
  }

  lemma OneMove(window: Window, ledger: Ledger, move: Move)
    requires window.Valid() && Possible(ledger, move)
    ensures Runs(window, ledger, [move]) && After(window, ledger, [move]) == Apply(window, ledger, move)
  {
    var next := Apply(window, ledger, move);
    var rest: seq<Move> := [];
    assert [move][0] == move && [move][1..] == rest;
    assert Runs(window, next, rest) && After(window, next, rest) == next;
  }

  /** Whatever was granted before, a quote in an earlier bucket than its check can be spent again: at some
      instant before the grant is a window old, what the window seems to have left is granted, and the
      window then ending holds the whole limit and the stale amount. */
  lemma StaleQuoteOverspends(window: Window, ledger: Ledger, quoted: int, at: int, amount: int)
    returns (t: int, room: int)
    requires window.Valid() && 0 <= window.limit <= SAFE_LIMIT
    requires Inv(window, 0, ledger) && ledger.excess == 0 && ledger.clock <= at && quoted <= at
    requires Accepts(window, ledger, quoted, at, amount) && Last(window, quoted) < Last(window, at)
    ensures at <= t
    ensures var next := Apply(window, ledger, Ask(quoted, at, amount));
            && Runs(window, next, [Ask(t, t, room)])
            && After(window, next, [Ask(t, t, room)]).excess == 0
            && Spent(After(window, next, [Ask(t, t, room)]).grants, t - window.duration, t) >= window.limit + amount
  {
    var bucket := Last(window, quoted);
    t := Forgotten(window, bucket, at);
    room := window.limit - Active(window, ledger, t);
    var next := Apply(window, ledger, Ask(quoted, at, amount));
    ExpiresEarly(window, bucket, at);
    RoomIsGranted(window, ledger, quoted, at, amount);
    OneMove(window, next, Ask(t, t, room));
    SpentTwoMore(ledger.grants, Grant(at, bucket, amount), Grant(t, Last(window, t), room), t - window.duration, t);
    ActiveIsSpent(window, ledger, t);
  }

  // Quotes in the bucket of their check from here on keep every interval one window long within the
  // limit and the excess.
  ghost predicate RunStaysWithin(window: Window, ledger: Ledger, moves: seq<Move>)
    requires window.Valid()
  {
    Runs(window, ledger, moves) && AllLagging(window, 0, moves) ==>
      forall from, to :: to == from + window.duration ==> Within(window, After(window, ledger, moves), from, to)
  }

  ghost predicate StaysWithin(window: Window, ledger: Ledger)
    requires window.Valid()
  {
    forall moves :: RunStaysWithin(window, ledger, moves)
  }

  lemma FreshQuoteStaysWithin(window: Window, ledger: Ledger)
    requires window.Valid() && Inv(window, 0, ledger)
    ensures StaysWithin(window, ledger)
  {
    forall moves
      ensures RunStaysWithin(window, ledger, moves)
    {
      if Runs(window, ledger, moves) && AllLagging(window, 0, moves) {
        RunKeeps(window, 0, ledger, moves);
        forall from, to | to == from + window.duration
          ensures Within(window, After(window, ledger, moves), from, to)
        {
          assert Short(window, 0, from, to);
        }
      }
    }
  }

  lemma StaleQuoteDoesNot(window: Window, ledger: Ledger, quoted: int, at: int, amount: int)
    requires window.Valid() && 0 <= window.limit <= SAFE_LIMIT
    requires Inv(window, 0, ledger) && ledger.excess == 0 && ledger.clock <= at && quoted <= at
    requires Accepts(window, ledger, quoted, at, amount) && 0 < amount && Last(window, quoted) < Last(window, at)
    ensures !StaysWithin(window, Apply(window, ledger, Ask(quoted, at, amount)))
  {
    var next := Apply(window, ledger, Ask(quoted, at, amount));
    var t, room := StaleQuoteOverspends(window, ledger, quoted, at, amount);
    var moves := [Ask(t, t, room)];
    assert AllLagging(window, 0, moves);
    var from := t - window.duration;
    assert t == from + window.duration && !Within(window, After(window, next, moves), from, t);
    assert !RunStaysWithin(window, next, moves);
  }

  /** After any history of fresh quotes, an accepted reservation quoted in the bucket of its check leaves
      the limit safe for the future. As long as no settlement has charged beyond its reservation, every
      other one does not. */
  lemma QuoteIsSafeIff(window: Window, clock: int, moves: seq<Move>, quoted: int, at: int, amount: int)
    requires window.Valid() && 0 <= window.limit <= SAFE_LIMIT
    requires Runs(window, Empty(clock), moves) && AllLagging(window, 0, moves)
    requires var ledger := After(window, Empty(clock), moves);
             && Possible(ledger, Ask(quoted, at, amount))
             && Accepts(window, ledger, quoted, at, amount) && 0 < amount
    ensures var ledger := After(window, Empty(clock), moves);
            var next := Apply(window, ledger, Ask(quoted, at, amount));
            && (Last(window, quoted) == Last(window, at) ==> StaysWithin(window, next))
            && (ledger.excess == 0 ==> (StaysWithin(window, next) <==> Last(window, quoted) == Last(window, at)))
  {
    var ledger := After(window, Empty(clock), moves);
    EmptyHolds(window, 0, clock);
    RunKeeps(window, 0, Empty(clock), moves);
    FloorMonotone(quoted, at, window.bucket);
    if Last(window, quoted) == Last(window, at) {
      StepKeeps(window, 0, ledger, Ask(quoted, at, amount));
      FreshQuoteStaysWithin(window, Apply(window, ledger, Ask(quoted, at, amount)));
    } else if ledger.excess == 0 {
      StaleQuoteDoesNot(window, ledger, quoted, at, amount);
    }
  }

  lemma {:induction false} SumSingle(index: int, amount: int, first: int, last: int)
    ensures Sum(map[index := amount], first, last) == if first <= index <= last then amount else 0
    decreases last - first + 1
  {
    if first <= last {
      SumSingle(index, amount, first + 1, last);
    }
  }

  const TenPerTen := Window(10, 1, 10)

  lemma UnitBuckets(at: int)
    requires 10 <= at
    ensures First(TenPerTen, at) == at - 10 && Last(TenPerTen, at) == at
  {
    FloorUnique(at - 10, 1, at - 10);
    FloorUnique(at, 1, at);
  }

  lemma TenLate()
    ensures Apply(TenPerTen, Empty(100), Ask(0, 100, 10)) == Ledger(map[0 := 10], [Grant(100, 0, 10)], 100, 0)
  {
    UnitBuckets(100);
    FloorUnique(0, 1, 0);
    SumEmpty(90, 100);
  }

  lemma TenMore()
    ensures Apply(TenPerTen, Ledger(map[0 := 10], [Grant(100, 0, 10)], 100, 0), Ask(100, 100, 10)).grants ==
            [Grant(100, 0, 10), Grant(100, 100, 10)]
  {
    UnitBuckets(100);
    SumSingle(0, 10, 90, 100);
  }

  // Ten quoted at 0 and granted at 100, then ten more at 100: twice the limit in one window.
  lemma LateFallbackOverspends()
    ensures var moves := [Ask(0, 100, 10), Ask(100, 100, 10)];
            && Runs(TenPerTen, Empty(100), moves)
            && Spent(After(TenPerTen, Empty(100), moves).grants, 100, 110) == 20
  {
    hide Apply, Spent;
    TenLate();
    TenMore();
    var first := Ledger(map[0 := 10], [Grant(100, 0, 10)], 100, 0);
    OneMove(TenPerTen, first, Ask(100, 100, 10));
    assert [Ask(0, 100, 10), Ask(100, 100, 10)][1..] == [Ask(100, 100, 10)];
    SpentTwoMore([], Grant(100, 0, 10), Grant(100, 100, 10), 100, 110);
    assert [] + [Grant(100, 0, 10)] + [Grant(100, 100, 10)] == [Grant(100, 0, 10), Grant(100, 100, 10)];
    NothingSpent(100, 110);
  }

  lemma NothingSpent(from: int, to: int)
    ensures Spent([], from, to) == 0
  {
  }
}
