/** Sliding budget windows over floor-divided time buckets (golang/budget/window.go).
    Instants and durations are unbounded nanosecond counts. */
module BudgetWindow {
  import opened Integers

  datatype Window = Window(duration: int, bucket: int, limit: int) {
    // What Validate demands of the geometry before a window is used.
    predicate Valid() {
      0 < bucket <= duration
    }
  }

  type Buckets = map<int, int>

  datatype Money = Amount(value: int) | OutOfRange

  // ----- Go integer division truncates toward zero -----

  function Quotient(value: int, divisor: int): int
    requires divisor > 0
  {
    if value >= 0 then value / divisor else -((-value) / divisor)
  }

  function Remainder(value: int, divisor: int): int
    requires divisor > 0
  {
    value - divisor * Quotient(value, divisor)
  }

  function FloorDiv(value: int, divisor: int): (result: int)
    requires divisor > 0
  {
    var quotient := Quotient(value, divisor);
    var remainder := Remainder(value, divisor);
    if remainder != 0 && (remainder < 0) != (divisor < 0) then quotient - 1 else quotient
  }

  // The correction turns truncation into the floor on both sides of zero.
  lemma FloorDivIsFloor(value: int, divisor: int)
    requires divisor > 0
    ensures divisor * FloorDiv(value, divisor) <= value < divisor * (FloorDiv(value, divisor) + 1)
  {
    if value < 0 {
      var q := (-value) / divisor;
      assert -value == divisor * q + (-value) % divisor;
      assert divisor * (-q) == -(divisor * q);
      assert divisor * (-q - 1) == -(divisor * q) - divisor;
    } else {
      assert value == divisor * (value / divisor) + value % divisor;
      assert divisor * (value / divisor + 1) == divisor * (value / divisor) + divisor;
    }
  }

  lemma FloorUnique(value: int, divisor: int, q: int)
    requires divisor > 0 && divisor * q <= value < divisor * (q + 1)
    ensures FloorDiv(value, divisor) == q
  {
    FloorDivIsFloor(value, divisor);
    var f := FloorDiv(value, divisor);
    if f < q {
      MulOrdered(divisor, f + 1, q);
    } else if q < f {
      MulOrdered(divisor, q + 1, f);
    }
  }

  lemma FloorMonotone(a: int, b: int, divisor: int)
    requires divisor > 0 && a <= b
    ensures FloorDiv(a, divisor) <= FloorDiv(b, divisor)
  {
    FloorDivIsFloor(a, divisor);
    FloorDivIsFloor(b, divisor);
    var f, g := FloorDiv(a, divisor), FloorDiv(b, divisor);
    if g < f {
      MulOrdered(divisor, g + 1, f);
    }
  }

  // Range's two ends.
  function First(window: Window, at: int): int
    requires window.Valid()
  {
    FloorDiv(at - window.duration, window.bucket)
  }

  function Last(window: Window, at: int): int
    requires window.Valid()
  {
    FloorDiv(at, window.bucket)
  }

  // Never more buckets than Validate budgets for, also before the epoch.
  lemma RangeIsBounded(window: Window, at: int)
    requires window.Valid()
    ensures First(window, at) <= Last(window, at)
    ensures Last(window, at) - First(window, at) + 1 <= window.duration / window.bucket + 2
  {
    var u := window.bucket;
    var f, l := First(window, at), Last(window, at);
    FloorMonotone(at - window.duration, at, u);
    FloorDivIsFloor(at, u);
    FloorDivIsFloor(at - window.duration, u);
    var d := window.duration / u;
    DivIsFloor(window.duration, u);
    if l >= f + d + 2 {
      MulOrdered(u, f + d + 2, l);
      MulSum(u, f, d);
    }
  }

  lemma DivIsFloor(value: int, divisor: int)
    requires divisor > 0 && value >= 0
    ensures value < divisor * (value / divisor) + divisor
  {
    assert value == divisor * (value / divisor) + value % divisor;
  }

  lemma MulSum(factor: int, a: int, b: int)
    ensures factor * (a + b + 2) == factor * (a + 1) + factor * b + factor
  {
    assert factor * (a + b + 2) == factor * a + factor * b + factor * 2;
    assert factor * (a + 1) == factor * a + factor;
  }

  // ----- sums over a bucket range -----

  function At(buckets: Buckets, index: int): int
  {
    if index in buckets then buckets[index] else 0
  }

  function Sum(buckets: Buckets, first: int, last: int): int
    decreases last - first + 1
  {
    if first > last then 0 else At(buckets, first) + Sum(buckets, first + 1, last)
  }

  predicate NonNegative(buckets: Buckets, first: int, last: int)
  {
    forall index :: first <= index <= last && index in buckets ==> buckets[index] >= 0
  }

  lemma {:induction false} SumSplit(buckets: Buckets, first: int, middle: int, last: int)
    requires first <= middle <= last + 1
    ensures Sum(buckets, first, last) == Sum(buckets, first, middle - 1) + Sum(buckets, middle, last)
    decreases middle - first
  {
    if first < middle {
      SumSplit(buckets, first + 1, middle, last);
    }
  }

  lemma {:induction false} SumNonNegative(buckets: Buckets, first: int, last: int)
    requires NonNegative(buckets, first, last)
    ensures Sum(buckets, first, last) >= 0
    decreases last - first + 1
  {
    if first <= last {
      SumNonNegative(buckets, first + 1, last);
    }
  }

  lemma {:induction false} SumIgnoresZeros(buckets: Buckets, first: int, last: int, later: int)
    requires last <= later
    requires forall index :: last < index && index in buckets ==> buckets[index] == 0
    ensures Sum(buckets, first, later) == Sum(buckets, first, last)
    decreases later - first + 1
  {
    if first <= later {
      SumIgnoresZeros(buckets, first + 1, last, later);
    }
  }

  // A later start drops non-negative amounts only.
  lemma SumShrinks(buckets: Buckets, first: int, middle: int, last: int)
    requires first <= middle && NonNegative(buckets, first, last)
    ensures Sum(buckets, middle, last) <= Sum(buckets, first, last)
  {
    if middle <= last + 1 {
      SumSplit(buckets, first, middle, last);
      SumNonNegative(buckets, first, middle - 1);
    } else {
      SumNonNegative(buckets, first, last);
    }
  }

  // ----- admission -----

  // The window can take the amount at this instant.
  predicate Allows(window: Window, buckets: Buckets, amount: int, at: int)
    requires window.Valid()
  {
    Sum(buckets, First(window, at), Last(window, at)) + amount <= window.limit
  }

  // MicroUSD.Add accepts both operands and the total only inside the safe range.
  predicate Countable(window: Window, buckets: Buckets, at: int)
    requires window.Valid()
  {
    && NonNegative(buckets, First(window, at), Last(window, at))
    && Sum(buckets, First(window, at), Last(window, at)) <= SAFE_LIMIT
  }

  method ActiveSum(window: Window, buckets: Buckets, at: int) returns (active: Money)
    requires window.Valid()
    ensures active.Amount? <==> Countable(window, buckets, at)
    ensures active.Amount? ==> active.value == Sum(buckets, First(window, at), Last(window, at))
  {
    var first, last := First(window, at), Last(window, at);
    RangeIsBounded(window, at);
    var total := 0;
    var index := first;
    while index <= last
      invariant first <= index <= last + 1
      invariant 0 <= total <= SAFE_LIMIT
      invariant total == Sum(buckets, first, index - 1)
      invariant NonNegative(buckets, first, index - 1)
    {
      var value := At(buckets, index);
      SumSplit(buckets, first, index, index);
      if value < 0 || value > SAFE_LIMIT || value > SAFE_LIMIT - total {
        if NonNegative(buckets, first, last) {
          SumSplit(buckets, first, index + 1, last);
          SumNonNegative(buckets, index + 1, last);
          assert Sum(buckets, index, index) == value;
        }
        return OutOfRange;
      }
      assert Sum(buckets, index, index) == value;
      total := total + value;
      index := index + 1;
    }
    return Amount(total);
  }

  datatype Decision = Decided(allowed: bool, active: int) | Invalid

  method CanReserve(window: Window, buckets: Buckets, amount: int, at: int) returns (decision: Decision)
    requires window.Valid()
    ensures decision.Decided? <==> Countable(window, buckets, at) && 0 <= amount <= SAFE_LIMIT
    ensures decision.Decided? ==>
              && decision.active == Sum(buckets, First(window, at), Last(window, at))
              && (decision.allowed <==> Allows(window, buckets, amount, at))
  {
    var active := ActiveSum(window, buckets, at);
    if active.OutOfRange? || amount < 0 || amount > SAFE_LIMIT {
      return Invalid;
    }
    if active.value > window.limit || amount > window.limit - active.value {
      return Decided(false, active.value);
    }
    return Decided(true, active.value);
  }

  // No reservation lies in a later bucket than the current one.
  predicate NoFuture(window: Window, buckets: Buckets, at: int)
    requires window.Valid()
  {
    forall index :: Last(window, at) < index && index in buckets ==> buckets[index] == 0
  }

  // Later, the active sum is what is left of the current one.
  lemma LaterSum(window: Window, buckets: Buckets, at: int, later: int)
    requires window.Valid() && at <= later && NoFuture(window, buckets, at)
    ensures Sum(buckets, First(window, later), Last(window, later)) ==
            Sum(buckets, First(window, later), Last(window, at))
    ensures First(window, at) <= First(window, later)
  {
    FloorMonotone(at, later, window.bucket);
    FloorMonotone(at - window.duration, later - window.duration, window.bucket);
    SumIgnoresZeros(buckets, First(window, later), Last(window, at), Last(window, later));
  }

  // The first instant at which a bucket no longer counts.
  function Expiry(window: Window, index: int): int
  {
    (index + 1) * window.bucket + window.duration
  }

  lemma ExpiryIsExact(window: Window, index: int, later: int)
    requires window.Valid()
    ensures later < Expiry(window, index) ==> First(window, later) <= index
    ensures later == Expiry(window, index) ==> First(window, later) == index + 1
  {
    if later < Expiry(window, index) {
      FloorDivIsFloor(later - window.duration, window.bucket);
      var f := First(window, later);
      if f > index {
        MulOrdered(window.bucket, index + 1, f);
      }
    } else if later == Expiry(window, index) {
      assert window.bucket * (index + 1) <= later - window.duration < window.bucket * (index + 2);
      FloorUnique(later - window.duration, window.bucket, index + 1);
    }
  }

  // Buckets from `index` on are too much, those after it are not: the wait ends with `index`.
  lemma WaitEndsAtExpiry(window: Window, buckets: Buckets, amount: int, at: int, index: int)
    requires window.Valid() && NoFuture(window, buckets, at)
    requires First(window, at) <= index <= Last(window, at)
    requires NonNegative(buckets, First(window, at), Last(window, at))
    requires Sum(buckets, index, Last(window, at)) + amount > window.limit
    requires Sum(buckets, index + 1, Last(window, at)) + amount <= window.limit
    ensures at < Expiry(window, index) <= at + window.bucket + window.duration
    ensures Allows(window, buckets, amount, Expiry(window, index))
    ensures forall later :: at <= later < Expiry(window, index) ==> !Allows(window, buckets, amount, later)
  {
    var last := Last(window, at);
    FloorDivIsFloor(at, window.bucket);
    FloorDivIsFloor(at - window.duration, window.bucket);
    MulOrdered(window.bucket, First(window, at) + 1, index + 1);
    MulOrdered(window.bucket, index, last);
    assert window.bucket * (index + 1) == window.bucket * index + window.bucket;
    var expiry := Expiry(window, index);
    ExpiryIsExact(window, index, expiry);
    LaterSum(window, buckets, at, expiry);
    forall later | at <= later < expiry
      ensures !Allows(window, buckets, amount, later)
    {
      ExpiryIsExact(window, index, later);
      LaterSum(window, buckets, at, later);
      SumShrinks(buckets, First(window, later), index, last);
    }
  }

  // An amount above the limit fits at no time.
  lemma NeverAllows(window: Window, buckets: Buckets, amount: int, at: int, later: int)
    requires window.Valid() && NoFuture(window, buckets, at) && at <= later
    requires NonNegative(buckets, First(window, at), Last(window, at))
    requires amount > window.limit
    ensures !Allows(window, buckets, amount, later)
  {
    LaterSum(window, buckets, at, later);
    SumNonNegative(buckets, First(window, later), Last(window, at));
  }

  datatype Wait = Wait(nanos: int) | Unknown

  /** After a denial and with no further reservations the answer is the least wait: the amount fits
      at that instant and at none before. The largest duration stands for never. */
  method RetryAfter(window: Window, buckets: Buckets, amount: int, at: int) returns (wait: Wait)
    requires window.Valid()
    ensures wait.Wait? <==> Countable(window, buckets, at) && 0 <= amount <= SAFE_LIMIT
    ensures wait.Wait? && Allows(window, buckets, amount, at) ==> wait.nanos == 0
    ensures wait.Wait? && !Allows(window, buckets, amount, at)
            && NoFuture(window, buckets, at) && amount <= window.limit ==>
              && 0 < wait.nanos <= window.bucket + window.duration
              && Allows(window, buckets, amount, at + wait.nanos)
              && forall later :: at <= later < at + wait.nanos ==> !Allows(window, buckets, amount, later)
    ensures wait.Wait? && NoFuture(window, buckets, at) && amount > window.limit ==>
              && wait.nanos == MAX_INT64
              && forall later :: at <= later ==> !Allows(window, buckets, amount, later)
    ensures wait.Wait? && NoFuture(window, buckets, at) && window.bucket + window.duration < MAX_INT64 ==>
              (wait.nanos == MAX_INT64 <==> amount > window.limit)
  {
    var decision := CanReserve(window, buckets, amount, at);
    if decision.Invalid? {
      return Unknown;
    }
    var first, last := First(window, at), Last(window, at);
    RangeIsBounded(window, at);
    if amount > window.limit {
      SumNonNegative(buckets, first, last);
      forall later | at <= later && NoFuture(window, buckets, at)
        ensures !Allows(window, buckets, amount, later)
      {
        NeverAllows(window, buckets, amount, at, later);
      }
    }
    if decision.allowed {
      return Wait(0);
    }
    var active := decision.active;
    var index := first;
    while index <= last
      invariant first <= index <= last + 1
      invariant active == Sum(buckets, index, last)
      invariant active + amount > window.limit
    {
      var value := At(buckets, index);
      if value != 0 {
        SumNonNegative(buckets, index + 1, last);
        active := active - value;
        if active <= window.limit && amount <= window.limit - active {
          var expires := (index + 1) * window.bucket + window.duration;
          var candidate := expires - at;
          if NoFuture(window, buckets, at) {
            WaitEndsAtExpiry(window, buckets, amount, at, index);
          }
          return Wait(if candidate < 0 then 0 else candidate);
        }
      }
      index := index + 1;
    }
    return Wait(MAX_INT64);
  }
}
