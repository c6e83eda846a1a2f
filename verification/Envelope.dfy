/**
 * The admission envelope: a scalar reservation and the vector of window reservations that must agree
 * with it, in whole micro-dollars and, when exact dollars are given, exactly.
 *
 * The quoted plan's maxima and its merged vector pass the exact check under one condition.
 */
module Envelope {
  import opened Integers
  import opened Estimate
  import opened Reservations

  datatype Identity = Identity(key: Key, bucket: int)

  function IdentityOf(r: WindowReservation): Identity
  {
    Identity(r.key, r.bucket)
  }

  predicate ValidMicro(amount: int) { 0 <= amount <= SAFE_LIMIT }

  predicate ValidUsd(amount: int) { 0 <= amount <= MAX_USD }

  predicate OneEach(reservations: seq<WindowReservation>)
  {
    forall i, j :: 0 <= i < j < |reservations| ==> IdentityOf(reservations[i]) != IdentityOf(reservations[j])
  }

  predicate Agrees(reservations: seq<WindowReservation>, expected: int)
  {
    && ValidMicro(expected)
    && (forall r <- reservations :: r.amount == expected)
    && OneEach(reservations)
  }

  // No two entries are for the same bucket of the same window, and every one is for the whole scalar.
  lemma EnvelopeAgreesIff(reservations: seq<WindowReservation>, expected: int)
    ensures Agrees(reservations, expected) <==>
              && 0 <= expected <= SAFE_LIMIT
              && (forall i :: 0 <= i < |reservations| ==> reservations[i].amount == expected)
              && (forall i, j :: 0 <= i < j < |reservations| ==>
                    || reservations[i].key.policy != reservations[j].key.policy
                    || reservations[i].key.window != reservations[j].key.window
                    || reservations[i].bucket != reservations[j].bucket)
  {
    assert forall i :: 0 <= i < |reservations| ==> reservations[i] in reservations;
    forall i, j | 0 <= i < j < |reservations|
      ensures IdentityOf(reservations[i]) == IdentityOf(reservations[j]) <==>
                && reservations[i].key.policy == reservations[j].key.policy
                && reservations[i].key.window == reservations[j].key.window
                && reservations[i].bucket == reservations[j].bucket
    {
    }
  }

  method ValidateReservationEnvelope(reservations: seq<WindowReservation>, expected: int) returns (ok: bool)
    ensures ok <==> Agrees(reservations, expected)
  {
    if expected < 0 || !ValidMicro(expected) {
      return false;
    }
    var seen: set<Identity> := {};
    for index := 0 to |reservations|
      invariant forall i :: 0 <= i < index ==> reservations[i].amount == expected
      invariant forall identity ::
                  identity in seen <==> exists i :: 0 <= i < index && IdentityOf(reservations[i]) == identity
      invariant OneEach(reservations[..index])
    {
      var r := reservations[index];
      if r.amount != expected {
        return false;
      }
      if IdentityOf(r) in seen {
        return false;
      }
      seen := seen + {IdentityOf(r)};
    }
    assert reservations[..|reservations|] == reservations;
    ok := true;
  }

  // Rounding down, for limits.
  function MicroFromUSD(usd: int): Money
    requires usd >= 0
  {
    var amount := usd / UNITS_PER_MICRO;
    if amount > SAFE_LIMIT then Unusable else Money(amount)
  }

  // A micro-dollar limit never admits more than the exact limit, except that a positive exact limit
  // below one micro-dollar still leaves one.
  predicate LimitAgrees(r: WindowReservation)
  {
    && ValidUsd(r.limitUsd)
    && (r.limitUsd != 0 ==>
          var limit := MicroFromUSD(r.limitUsd);
          limit.Money? && r.limit <= if limit.amount == 0 then 1 else limit.amount)
  }

  // An exact limit bounds the integer one by its whole micro-dollars, or by one if it has none.
  lemma ExactLimitIff(r: WindowReservation)
    ensures LimitAgrees(r) <==>
              || r.limitUsd == 0
              || (&& 0 < r.limitUsd <= MAX_USD
                  && (r.limitUsd < 1_000_000_000_000 ==> r.limit <= 1)
                  && (r.limitUsd >= 1_000_000_000_000 ==>
                        && r.limit * 1_000_000_000_000 <= r.limitUsd
                        && r.limitUsd < (SAFE_LIMIT + 1) * 1_000_000_000_000))
  {
  }

  predicate AmountAgrees(r: WindowReservation, expectedUsd: int)
  {
    && ValidUsd(r.amountUsd)
    && r.amountUsd == expectedUsd
    && (expectedUsd > 0 ==>
          var required := CeilMicroFromUSD(r.amountUsd);
          required.Money? && required.amount <= r.amount)
  }

  // Exact dollars, when there are any, are never under-reserved and never exceed an exact limit.
  predicate AgreesExactly(reservations: seq<WindowReservation>, expected: int, expectedUsd: int)
  {
    && Agrees(reservations, expected)
    && ValidUsd(expectedUsd)
    && (expectedUsd > 0 ==>
          var required := CeilMicroFromUSD(expectedUsd);
          required.Money? && required.amount <= expected)
    && (forall r <- reservations :: AmountAgrees(r, expectedUsd) && LimitAgrees(r))
  }

  method CheckReservation(r: WindowReservation, expectedUsd: int) returns (ok: bool)
    requires ValidUsd(expectedUsd)
    ensures ok <==> AmountAgrees(r, expectedUsd) && LimitAgrees(r)
  {
    if !ValidUsd(r.amountUsd) || !ValidUsd(r.limitUsd) {
      return false;
    }
    if expectedUsd != 0 {
      if r.amountUsd == 0 || r.amountUsd != expectedUsd {
        return false;
      }
      var required := CeilMicroFromUSD(r.amountUsd);
      if required.Unusable? || r.amount < required.amount {
        return false;
      }
    } else if r.amountUsd != 0 {
      return false;
    }
    if r.limitUsd != 0 {
      var limit := MicroFromUSD(r.limitUsd);
      if limit.Unusable? {
        return false;
      }
      var most := limit.amount;
      if most == 0 {
        most := 1;
      }
      if r.limit > most {
        return false;
      }
    }
    ok := true;
  }

  method ValidateExactUSDReservationEnvelope(reservations: seq<WindowReservation>, expected: int, expectedUsd: int)
    returns (ok: bool)
    ensures ok <==> AgreesExactly(reservations, expected, expectedUsd)
  {
    ok := ValidateReservationEnvelope(reservations, expected);
    if !ok || !ValidUsd(expectedUsd) {
      return false;
    }
    var hasExact := expectedUsd != 0;
    var i := 0;
    while i < |reservations| && !hasExact
      invariant i <= |reservations|
      invariant !hasExact ==>
                  && expectedUsd == 0
                  && forall k :: 0 <= k < i ==> reservations[k].amountUsd == 0 == reservations[k].limitUsd
    {
      if reservations[i].amountUsd != 0 || reservations[i].limitUsd != 0 {
        hasExact := true;
      }
      i := i + 1;
    }
    if !hasExact {
      return true;
    }
    if expectedUsd != 0 {
      var required := CeilMicroFromUSD(expectedUsd);
      if required.Unusable? || expected < required.amount {
        return false;
      }
    }
    for index := 0 to |reservations|
      invariant forall k ::
                  0 <= k < index ==> AmountAgrees(reservations[k], expectedUsd) && LimitAgrees(reservations[k])
    {
      var good := CheckReservation(reservations[index], expectedUsd);
      if !good {
        return false;
      }
    }
    ok := true;
  }

  // ---------------------------------------------------------------------------------------------
  // The plan's own envelope.

  // A quoted candidate: its estimate, and one reservation of that estimate per matched window.
  datatype Candidate = Candidate(micro: int, usd: int, reservations: seq<WindowReservation>)

  predicate Quoted(c: Candidate)
  {
    && ValidMicro(c.micro) && ValidUsd(c.usd) && Ceil(c.usd, UNITS_PER_MICRO) <= c.micro
    && (forall r <- c.reservations :: r.amount == c.micro && r.amountUsd == c.usd)
  }

  predicate AllQuoted(candidates: seq<Candidate>)
  {
    forall c <- candidates :: Quoted(c)
  }

  function MaxMicro(candidates: seq<Candidate>): (most: int)
    ensures most >= 0 && forall c <- candidates :: c.micro <= most
    ensures most == 0 || exists c <- candidates :: c.micro == most
  {
    if candidates == [] then 0 else
      var last := candidates[|candidates| - 1];
      assert candidates == candidates[..|candidates| - 1] + [last];
      var most := MaxMicro(candidates[..|candidates| - 1]);
      if last.micro > most then last.micro else most
  }

  function MaxUsd(candidates: seq<Candidate>): (most: int)
    ensures most >= 0 && forall c <- candidates :: c.usd <= most
    ensures most == 0 || exists c <- candidates :: c.usd == most
  {
    if candidates == [] then 0 else
      var last := candidates[|candidates| - 1];
      assert candidates == candidates[..|candidates| - 1] + [last];
      var most := MaxUsd(candidates[..|candidates| - 1]);
      if last.usd > most then last.usd else most
  }

  function Vectors(candidates: seq<Candidate>): seq<seq<WindowReservation>>
  {
    seq(|candidates|, i requires 0 <= i < |candidates| => candidates[i].reservations)
  }

  function AllReservations(candidates: seq<Candidate>): seq<WindowReservation>
  {
    Flat(Vectors(candidates))
  }

  predicate Matches(c: Candidate, key: Key)
  {
    exists r <- c.reservations :: r.key == key
  }

  lemma ReservationHasCandidate(candidates: seq<Candidate>, r: WindowReservation)
    ensures r in AllReservations(candidates) <==> exists c <- candidates :: r in c.reservations
  {
    var vectors := Vectors(candidates);
    FlatHolds(vectors, r);
    if i :| 0 <= i < |vectors| && r in vectors[i] {
      assert candidates[i] in candidates && r in candidates[i].reservations;
    }
    if c :| c in candidates && r in c.reservations {
      var i :| 0 <= i < |candidates| && candidates[i] == c;
      assert r in vectors[i];
    }
  }

  /**
   * Each entry of a plan's merged vector is at least the estimate of every candidate that matches its
   * window, is the estimate of one of them, and carries the plan's exact dollars.
   */
  lemma EntryCoversItsCandidates(candidates: seq<Candidate>, values: seq<WindowReservation>, v: WindowReservation)
    requires AllQuoted(candidates) && v in values
    requires IsAggregate(AllReservations(candidates), MaxUsd(candidates), values)
    ensures v.amountUsd == MaxUsd(candidates)
    ensures forall c <- candidates :: Matches(c, v.key) ==> c.micro <= v.amount
    ensures exists c <- candidates :: Matches(c, v.key) && c.micro == v.amount
    ensures exists r <- AllReservations(candidates) :: r.key == v.key && v == Raised(r, MaxUsd(candidates))
  {
    var all := AllReservations(candidates);
    MergedIsLargest(all);
    var chosen := Merged(all)[v.key];
    ReservationHasCandidate(candidates, chosen);
    var owner :| owner in candidates && chosen in owner.reservations;
    assert Quoted(owner) && Matches(owner, v.key);
    forall c | c in candidates && Matches(c, v.key)
      ensures c.micro <= v.amount
    {
      var r :| r in c.reservations && r.key == v.key;
      ReservationHasCandidate(candidates, r);
      assert Quoted(c) && !Beats(r, chosen);
    }
  }

  lemma MatchedHasEntry(candidates: seq<Candidate>, values: seq<WindowReservation>, c: Candidate, key: Key)
    requires IsAggregate(AllReservations(candidates), MaxUsd(candidates), values) && c in candidates && Matches(c, key)
    ensures exists v <- values :: v.key == key
  {
    var all := AllReservations(candidates);
    var r :| r in c.reservations && r.key == key;
    ReservationHasCandidate(candidates, r);
    MergedIsLargest(all);
    assert Raised(Merged(all)[key], MaxUsd(candidates)) in values;
  }

  lemma PlanScalarCovers(candidates: seq<Candidate>)
    requires AllQuoted(candidates)
    ensures ValidMicro(MaxMicro(candidates)) && ValidUsd(MaxUsd(candidates))
    ensures CeilMicroFromUSD(MaxUsd(candidates)).Money?
              && CeilMicroFromUSD(MaxUsd(candidates)).amount <= MaxMicro(candidates)
  {
    if MaxUsd(candidates) != 0 {
      var c :| c in candidates && c.usd == MaxUsd(candidates);
      assert Quoted(c);
    }
    if MaxMicro(candidates) != 0 {
      var c :| c in candidates && c.micro == MaxMicro(candidates);
      assert Quoted(c);
    }
  }

  lemma StrictHasOneEach(values: seq<WindowReservation>)
    requires StrictlySorted(values)
    ensures OneEach(values)
  {
    forall i, j | 0 <= i < j < |values|
      ensures IdentityOf(values[i]) != IdentityOf(values[j])
    {
      KeyTotal(values[i].key, values[j].key);
    }
  }

  // Some candidate that matches the window attains the plan's micro-dollar maximum.
  predicate TopMatches(candidates: seq<Candidate>, key: Key)
  {
    exists c <- candidates :: Matches(c, key) && c.micro == MaxMicro(candidates)
  }

  lemma EntryIsTopIff(candidates: seq<Candidate>, values: seq<WindowReservation>, v: WindowReservation)
    requires AllQuoted(candidates) && v in values
    requires IsAggregate(AllReservations(candidates), MaxUsd(candidates), values)
    ensures v.amount == MaxMicro(candidates) <==> TopMatches(candidates, v.key)
  {
    EntryCoversItsCandidates(candidates, values, v);
  }

  lemma EntryAgreesExactly(candidates: seq<Candidate>, values: seq<WindowReservation>, v: WindowReservation)
    requires AllQuoted(candidates) && v in values
    requires IsAggregate(AllReservations(candidates), MaxUsd(candidates), values)
    requires forall r <- AllReservations(candidates) :: LimitAgrees(r)
    requires v.amount == MaxMicro(candidates)
    ensures AmountAgrees(v, MaxUsd(candidates)) && LimitAgrees(v)
  {
    EntryCoversItsCandidates(candidates, values, v);
    PlanScalarCovers(candidates);
    var r :| r in AllReservations(candidates) && r.key == v.key && v == Raised(r, MaxUsd(candidates));
  }

  /**
   * With limits that agree, the plan's envelope passes the exact check exactly when every matched
   * window is matched by some candidate attaining the micro-dollar maximum.
   */
  lemma PlanEnvelopeAgreesIff(candidates: seq<Candidate>, values: seq<WindowReservation>)
    requires AllQuoted(candidates) && IsAggregate(AllReservations(candidates), MaxUsd(candidates), values)
    requires forall r <- AllReservations(candidates) :: LimitAgrees(r)
    ensures AgreesExactly(values, MaxMicro(candidates), MaxUsd(candidates)) <==>
              forall c <- candidates, r <- c.reservations :: TopMatches(candidates, r.key)
  {
    PlanScalarCovers(candidates);
    StrictHasOneEach(values);
    forall v | v in values
      ensures v.amount == MaxMicro(candidates) <==> TopMatches(candidates, v.key)
      ensures v.amount == MaxMicro(candidates) ==> AmountAgrees(v, MaxUsd(candidates)) && LimitAgrees(v)
      ensures exists c <- candidates, r <- c.reservations :: r.key == v.key
    {
      EntryIsTopIff(candidates, values, v);
      EntryCoversItsCandidates(candidates, values, v);
      if v.amount == MaxMicro(candidates) {
        EntryAgreesExactly(candidates, values, v);
      }
    }
    forall c, r | c in candidates && r in c.reservations
      ensures exists v <- values :: v.key == r.key
    {
      assert Matches(c, r.key);
      MatchedHasEntry(candidates, values, c, r.key);
    }
  }

  // What the estimator produces is a quote in this sense, for any windows it is reserved in.
  lemma EstimateIsQuoted(components: seq<Component>, toolAllowance: int, ratio: Ratio,
                         reservations: seq<WindowReservation>)
    requires 0 <= toolAllowance && (ratio.Ratio? ==> ratio.denominator > 0)
    requires Estimated(components, toolAllowance, ratio).Cost?
    requires var cost := Estimated(components, toolAllowance, ratio);
             forall r <- reservations :: r.amount == cost.micro && r.amountUsd == cost.usd
    ensures var cost := Estimated(components, toolAllowance, ratio);
            Quoted(Candidate(cost.micro, cost.usd, reservations))
  {
    EstimateNeverUnderReserves(components, toolAllowance, ratio);
    CeilIsLeast(Estimated(components, toolAllowance, ratio).usd, UNITS_PER_MICRO, 0);
  }

  // Tokens at one dollar a million.
  function Tokens(count: int): Component
  {
    Component(Decimal(1, 0), count, 1_000_000, false)
  }

  lemma CeilOfMultiple(count: int, unit: int)
    requires count >= 0 && unit > 0
    ensures count * unit >= 0 && Ceil(count * unit, unit) == count
  {
    CeilIsLeast(count * unit, unit, count);
    var c := Ceil(count * unit, unit);
    if c < count {
      MulOrdered(unit, c + 1, count);
    }
  }

  lemma TokensCost(count: int)
    requires 0 <= count <= 2
    ensures Estimated([Tokens(count)], 0, NoRatio) == Cost(count, count * UNITS_PER_MICRO)
  {
    var one := Tokens(count);
    assert Pow10(0) == 1 && Pow10(18) <= MAX_USD by { PowersOfTen(); }
    assert one.Valid() && Share(one) == count * 1_000_000 && Per(one) == 1_000_000;
    CeilOfMultiple(count, 1_000_000);
    CeilOfMultiple(count * UNITS_PER_MICRO, 1_000_000);
    assert Share(one) * UNITS_PER_MICRO == (count * UNITS_PER_MICRO) * 1_000_000;
    assert [one][..0] == [] && Totals([]) == Cost(0, 0);
    assert Totals([one]) == Cost(count, count * UNITS_PER_MICRO);
    CeilOfMultiple(0, UNITS_PER_MICRO);
  }

  lemma PowersOfTen()
    ensures Pow10(0) == 1 && Pow10(18) == 1_000_000_000_000_000_000
  {
    assert Pow10(3) == 1_000;
    assert Pow10(6) == 1_000 * Pow10(3);
    assert Pow10(9) == 1_000 * Pow10(6);
    assert Pow10(12) == 1_000 * Pow10(9);
    assert Pow10(15) == 1_000 * Pow10(12);
    assert Pow10(18) == 1_000 * Pow10(15);
  }

  // One token in a matched window, and a fallback of two tokens that matches none.
  function CheapThenDear(r: WindowReservation): seq<Candidate>
  {
    [Candidate(1, UNITS_PER_MICRO, [r]), Candidate(2, 2 * UNITS_PER_MICRO, [])]
  }

  /** A dearer fallback that matches no window makes the plan's envelope fail, with both candidates
      priced by the estimator. */
  lemma DearerUnmatchedFallbackIsRefused(r: WindowReservation, values: seq<WindowReservation>)
    requires r.amount == 1 && r.amountUsd == UNITS_PER_MICRO && r.limitUsd == 0
    requires IsAggregate(AllReservations(CheapThenDear(r)), MaxUsd(CheapThenDear(r)), values)
    ensures forall c <- CheapThenDear(r) :: Estimated([Tokens(c.micro)], 0, NoRatio) == Cost(c.micro, c.usd)
    ensures !AgreesExactly(values, MaxMicro(CheapThenDear(r)), MaxUsd(CheapThenDear(r)))
  {
    var plan := CheapThenDear(r);
    TokensCost(1);
    TokensCost(2);
    EstimateIsQuoted([Tokens(1)], 0, NoRatio, [r]);
    EstimateIsQuoted([Tokens(2)], 0, NoRatio, []);
    assert plan[1] in plan && MaxMicro(plan) >= 2;
    assert Matches(plan[0], r.key) by { assert r in plan[0].reservations; }
    MatchedHasEntry(plan, values, plan[0], r.key);
    var v :| v in values && v.key == r.key;
    EntryCoversItsCandidates(plan, values, v);
  }
}
