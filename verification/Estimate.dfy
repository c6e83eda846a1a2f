/** Two-precision cost estimates (golang/pricing/money.go, golang/pricing/decimal.go,
    golang/budget/estimate.go, golang/budget/context.go).

    USD amounts are integers of 10^-18 dollars, MicroUSD amounts integers of 10^-6 dollars. */
module Estimate {
  import opened Integers

  const MICRO: int := 1_000_000
  const UNITS_PER_MICRO: int := 1_000_000_000_000
  const MAX_USD: int := 99_999_999_999_999_999_999_999_999_999_999_999_999

  function Pow10(exponent: nat): (power: int)
    ensures power > 0
  {
    if exponent == 0 then 1 else 10 * Pow10(exponent - 1)
  }

  datatype Decimal = Decimal(numerator: int, scale: int) {
    predicate Valid() {
      0 <= scale <= 18 && 0 <= numerator && numerator * Pow10(18 - scale) <= MAX_USD
    }
  }

  datatype Money = Money(amount: int) | Unusable

  // QuoRem and add one when something is left.
  function Ceil(numerator: int, denominator: int): int
    requires numerator >= 0 && denominator > 0
  {
    if numerator % denominator != 0 then numerator / denominator + 1 else numerator / denominator
  }

  lemma CeilIsLeast(numerator: int, denominator: int, candidate: int)
    requires numerator >= 0 && denominator > 0
    ensures Ceil(numerator, denominator) * denominator >= numerator
    ensures Ceil(numerator, denominator) >= 0
    ensures candidate * denominator >= numerator ==> Ceil(numerator, denominator) <= candidate
  {
    var q, r := numerator / denominator, numerator % denominator;
    assert numerator == denominator * q + r && 0 <= r < denominator;
    assert (q + 1) * denominator == denominator * q + denominator;
    assert q >= 0;
    var c := Ceil(numerator, denominator);
    assert (c - 1) * denominator == c * denominator - denominator;
    assert (c - 1) * denominator < numerator;
    if candidate < c {
      MulOrdered(denominator, candidate, c - 1);
    }
  }

  // Rounding up at a coarser scale covers rounding up at the finer one.
  lemma CoarseCoversFine(numerator: int, denominator: int, factor: int)
    requires numerator >= 0 && denominator > 0 && factor > 0
    ensures numerator * factor >= 0
    ensures Ceil(numerator * factor, denominator) <= Ceil(numerator, denominator) * factor
  {
    var coarse := Ceil(numerator, denominator);
    CeilIsLeast(numerator, denominator, coarse);
    assert (coarse * denominator - numerator) * factor >= 0;
    assert (coarse * denominator - numerator) * factor == (coarse * factor) * denominator - numerator * factor;
    CeilIsLeast(numerator * factor, denominator, coarse * factor);
  }

  lemma CeilMonotone(small: int, large: int, denominator: int)
    requires 0 <= small <= large && denominator > 0
    ensures Ceil(small, denominator) <= Ceil(large, denominator)
  {
    CeilIsLeast(large, denominator, 0);
    CeilIsLeast(small, denominator, Ceil(large, denominator));
  }

  // ----- one price component -----

  datatype Component = Component(price: Decimal, units: int, unitsPerPrice: int, unknown: bool) {
    predicate Valid() {
      price.Valid() && units >= 0 && unitsPerPrice > 0
    }
  }

  lemma MulPositive(left: int, right: int)
    requires left > 0 && right > 0
    ensures left * right > 0
  {
  }

  lemma MulNonNegative(left: int, right: int)
    requires left >= 0 && right >= 0
    ensures left * right >= 0
  {
  }

  // The component costs Share() / Per() millionths of a dollar.
  function Share(component: Component): (share: int)
    requires component.Valid()
    ensures share >= 0
  {
    MulNonNegative(component.price.numerator, component.units);
    component.price.numerator * component.units * MICRO
  }

  function Per(component: Component): (per: int)
    requires component.Valid()
    ensures per > 0
  {
    MulPositive(Pow10(component.price.scale), component.unitsPerPrice);
    Pow10(component.price.scale) * component.unitsPerPrice
  }

  function CeilUSD(component: Component): Money
  {
    if !component.Valid() then Unusable
    else
      var amount := Ceil(Share(component) * UNITS_PER_MICRO, Per(component));
      if amount > MAX_USD then Unusable else Money(amount)
  }

  function CeilMicroUSD(component: Component): Money
  {
    if !component.Valid() then Unusable
    else
      var amount := Ceil(Share(component), Per(component));
      if amount > SAFE_LIMIT then Unusable else Money(amount)
  }

  function CeilMicroFromUSD(usd: int): Money
    requires usd >= 0
  {
    var amount := Ceil(usd, UNITS_PER_MICRO);
    if usd > MAX_USD || amount > SAFE_LIMIT then Unusable else Money(amount)
  }

  function AddUSD(left: int, right: int): (sum: Money)
    ensures sum.Money? ==> 0 <= left <= sum.amount
  {
    if left < 0 || right < 0 || left + right > MAX_USD then Unusable else Money(left + right)
  }

  function AddMicro(left: int, right: int): (sum: Money)
    ensures sum.Money? ==> 0 <= left <= sum.amount
  {
    if left < 0 || right < 0 || left + right > SAFE_LIMIT then Unusable else Money(left + right)
  }

  lemma ComponentCovers(component: Component)
    requires component.Valid()
    ensures Ceil(Share(component) * UNITS_PER_MICRO, Per(component)) <=
            Ceil(Share(component), Per(component)) * UNITS_PER_MICRO
    ensures 0 <= Ceil(Share(component) * UNITS_PER_MICRO, Per(component))
    ensures 0 <= Ceil(Share(component), Per(component))
  {
    CoarseCoversFine(Share(component), Per(component), UNITS_PER_MICRO);
    CeilIsLeast(Share(component) * UNITS_PER_MICRO, Per(component), 0);
    CeilIsLeast(Share(component), Per(component), 0);
  }

  // ----- the safety ratio -----

  datatype Ratio = NoRatio | Ratio(numerator: int, denominator: int)

  function Scale(amount: int, ratio: Ratio, limit: int): Money
    requires amount >= 0
    requires ratio.Ratio? ==> ratio.denominator > 0
  {
    match ratio
    case NoRatio => Money(amount)
    case Ratio(numerator, denominator) =>
      if numerator <= 0 then Unusable
      else
        assert amount * numerator >= 0;
        var scaled := Ceil(amount * numerator, denominator);
        if scaled > limit then Unusable else Money(scaled)
  }

  // A safety ratio below or above one keeps the coarse amount on top of the fine one.
  lemma ScaleCovers(micro: int, usd: int, ratio: Ratio)
    requires 0 <= usd <= micro * UNITS_PER_MICRO && 0 <= micro
    requires ratio.Ratio? ==> ratio.denominator > 0
    ensures Scale(micro, ratio, SAFE_LIMIT).Money? && Scale(usd, ratio, MAX_USD).Money? ==>
              Scale(usd, ratio, MAX_USD).amount <= Scale(micro, ratio, SAFE_LIMIT).amount * UNITS_PER_MICRO
  {
    if ratio.Ratio? && ratio.numerator > 0 {
      var n, d := ratio.numerator, ratio.denominator;
      assert micro * n >= 0 && usd * n >= 0;
      CoarseCoversFine(micro * n, d, UNITS_PER_MICRO);
      assert (micro * UNITS_PER_MICRO - usd) * n >= 0;
      assert (micro * UNITS_PER_MICRO - usd) * n == (micro * n) * UNITS_PER_MICRO - usd * n;
      CeilMonotone(usd * n, (micro * n) * UNITS_PER_MICRO, d);
    }
  }

  // ----- EstimateCandidate's arithmetic -----

  datatype Cost = Cost(micro: int, usd: int) | NoEstimate

  // The exact price of a component, in units of 10^-18 dollars and without any rounding.
  ghost function Exact(component: Component): real
    requires component.Valid()
  {
    (Share(component) * UNITS_PER_MICRO) as real / Per(component) as real
  }

  ghost predicate AllValid(components: seq<Component>)
  {
    forall i :: 0 <= i < |components| ==> components[i].Valid()
  }

  ghost function ExactTotal(components: seq<Component>): real
    requires AllValid(components)
  {
    if components == [] then 0.0
    else ExactTotal(components[..|components| - 1]) + Exact(components[|components| - 1])
  }

  ghost function Weight(ratio: Ratio): real
    requires ratio.Ratio? ==> ratio.denominator > 0
  {
    match ratio
    case NoRatio => 1.0
    case Ratio(numerator, denominator) => numerator as real / denominator as real
  }

  lemma CeilCoversReal(numerator: int, denominator: int)
    requires numerator >= 0 && denominator > 0
    ensures Ceil(numerator, denominator) as real >= numerator as real / denominator as real
  {
    CeilIsLeast(numerator, denominator, 0);
    var c := Ceil(numerator, denominator);
    assert (c * denominator) as real == c as real * denominator as real;
    assert c as real * denominator as real >= numerator as real;
    DivideBoth(c as real, numerator as real, denominator as real);
  }

  lemma DivideBoth(c: real, n: real, d: real)
    requires d > 0.0 && c * d >= n
    ensures c >= n / d
  {
    assert (c * d - n) / d >= 0.0;
    assert (c * d - n) / d == (c * d) / d - n / d;
    assert (c * d) / d == c;
  }

  lemma ScaleCoversReal(amount: int, exact: real, ratio: Ratio)
    requires amount >= 0 && amount as real >= exact
    requires ratio.Ratio? ==> ratio.denominator > 0
    ensures Scale(amount, ratio, MAX_USD).Money? ==>
              Scale(amount, ratio, MAX_USD).amount as real >= exact * Weight(ratio)
  {
    if ratio.Ratio? && ratio.numerator > 0 {
      var n, d := ratio.numerator, ratio.denominator;
      assert amount * n >= 0;
      CeilCoversReal(amount * n, d);
      assert (amount * n) as real == amount as real * n as real;
      WeightOrdered(exact, amount as real, n as real, d as real);
    }
  }

  lemma WeightOrdered(small: real, large: real, n: real, d: real)
    requires small <= large && n > 0.0 && d > 0.0
    ensures small * (n / d) <= large * n / d
  {
    assert n / d > 0.0;
    assert (large - small) * (n / d) >= 0.0;
    assert (large - small) * (n / d) == large * (n / d) - small * (n / d);
    assert large * (n / d) == large * n / d;
  }

  // The running totals of the component loop, and what the whole estimate comes to.
  function Totals(components: seq<Component>): Cost
  {
    if components == [] then Cost(0, 0)
    else
      var before := Totals(components[..|components| - 1]);
      if before.NoEstimate? then NoEstimate else Plus(before, components[|components| - 1])
  }

  function Plus(before: Cost, component: Component): Cost
    requires before.Cost?
  {
    var value, legacy := CeilUSD(component), CeilMicroUSD(component);
    if (component.units > 0 && component.unknown) || value.Unusable? || legacy.Unusable? then NoEstimate
    else
      var usd, micro := AddUSD(before.usd, value.amount), AddMicro(before.micro, legacy.amount);
      if usd.Unusable? || micro.Unusable? then NoEstimate else Cost(micro.amount, usd.amount)
  }

  // The tool allowance is charged at both precisions.
  function WithAllowance(totals: Cost, toolAllowance: int): Cost
    requires totals.Cost? && 0 <= toolAllowance
  {
    var allowance := CeilMicroFromUSD(toolAllowance);
    if allowance.Unusable? then NoEstimate
    else
      var usd, micro := AddUSD(totals.usd, toolAllowance), AddMicro(totals.micro, allowance.amount);
      if usd.Unusable? || micro.Unusable? then NoEstimate else Cost(micro.amount, usd.amount)
  }

  function Scaled(cost: Cost, ratio: Ratio): Cost
    requires cost.Cost? && 0 <= cost.usd && 0 <= cost.micro
    requires ratio.Ratio? ==> ratio.denominator > 0
  {
    var usd, micro := Scale(cost.usd, ratio, MAX_USD), Scale(cost.micro, ratio, SAFE_LIMIT);
    if usd.Unusable? || micro.Unusable? then NoEstimate else Cost(micro.amount, usd.amount)
  }

  function Estimated(components: seq<Component>, toolAllowance: int, ratio: Ratio): Cost
    requires 0 <= toolAllowance
    requires ratio.Ratio? ==> ratio.denominator > 0
  {
    EstimatedFrom(Totals(components), toolAllowance, ratio)
  }

  function EstimatedFrom(totals: Cost, toolAllowance: int, ratio: Ratio): Cost
    requires 0 <= toolAllowance
    requires ratio.Ratio? ==> ratio.denominator > 0
  {
    if totals.NoEstimate? then NoEstimate
    else
      var cost := WithAllowance(totals, toolAllowance);
      if cost.NoEstimate? then NoEstimate else Scaled(cost, ratio)
  }

  predicate Covers(cost: Cost)
    requires cost.Cost?
  {
    0 <= cost.usd <= cost.micro * UNITS_PER_MICRO && cost.usd <= MAX_USD && 0 <= cost.micro <= SAFE_LIMIT
  }

  lemma PlusCovers(before: Cost, component: Component)
    requires before.Cost? && Covers(before) && Plus(before, component).Cost?
    ensures component.Valid() && (component.units > 0 ==> !component.unknown)
    ensures Covers(Plus(before, component))
    ensures Plus(before, component).usd as real >= before.usd as real + Exact(component)
  {
    ComponentCovers(component);
    CeilCoversReal(Share(component) * UNITS_PER_MICRO, Per(component));
  }

  lemma {:induction false} TotalsCover(components: seq<Component>)
    requires Totals(components).Cost?
    ensures Covers(Totals(components))
    ensures AllValid(components)
    ensures forall i :: 0 <= i < |components| && components[i].units > 0 ==> !components[i].unknown
    ensures Totals(components).usd as real >= ExactTotal(components)
  {
    if components != [] {
      var n := |components| - 1;
      TotalsCover(components[..n]);
      PlusCovers(Totals(components[..n]), components[n]);
    }
  }

  lemma AllowanceCovers(totals: Cost, toolAllowance: int, exact: real)
    requires totals.Cost? && Covers(totals) && 0 <= toolAllowance && totals.usd as real >= exact
    requires WithAllowance(totals, toolAllowance).Cost?
    ensures Covers(WithAllowance(totals, toolAllowance))
    ensures WithAllowance(totals, toolAllowance).usd as real >= exact + toolAllowance as real
  {
    CeilIsLeast(toolAllowance, UNITS_PER_MICRO, 0);
  }

  lemma ScaledCovers(cost: Cost, exact: real, ratio: Ratio)
    requires cost.Cost? && Covers(cost) && cost.usd as real >= exact
    requires ratio.Ratio? ==> ratio.denominator > 0
    requires Scaled(cost, ratio).Cost?
    ensures Covers(Scaled(cost, ratio))
    ensures Scaled(cost, ratio).usd as real >= exact * Weight(ratio)
  {
    ScaleCovers(cost.micro, cost.usd, ratio);
    ScaleCoversReal(cost.usd, exact, ratio);
    ScaleNonNegative(cost.usd, ratio, MAX_USD);
    ScaleNonNegative(cost.micro, ratio, SAFE_LIMIT);
  }

  lemma CoversRoundedUp(cost: Cost)
    requires cost.Cost? && Covers(cost)
    ensures Ceil(cost.usd, UNITS_PER_MICRO) <= cost.micro
  {
    CeilIsLeast(cost.usd, UNITS_PER_MICRO, cost.micro);
  }

  // The exact price of everything the estimate reserves for, without any rounding.
  ghost function ExactEstimate(exact: real, toolAllowance: int, ratio: Ratio): real
    requires ratio.Ratio? ==> ratio.denominator > 0
  {
    (exact + toolAllowance as real) * Weight(ratio)
  }

  lemma EstimatedFromCovers(totals: Cost, exact: real, toolAllowance: int, ratio: Ratio)
    requires totals.Cost? && Covers(totals) && totals.usd as real >= exact
    requires 0 <= toolAllowance
    requires ratio.Ratio? ==> ratio.denominator > 0
    requires EstimatedFrom(totals, toolAllowance, ratio).Cost?
    ensures var cost := EstimatedFrom(totals, toolAllowance, ratio);
            Covers(cost) && cost.usd as real >= ExactEstimate(exact, toolAllowance, ratio)
  {
    AllowanceCovers(totals, toolAllowance, exact);
    ScaledCovers(WithAllowance(totals, toolAllowance), exact + toolAllowance as real, ratio);
  }

  /** Whenever an estimate is produced, the USD amount covers the exact price of every component,
      the tool allowance and the safety ratio, and the MicroUSD amount covers the USD amount
      rounded up, so the integer reservation never under-reserves either. */
  lemma {:induction false} EstimateNeverUnderReserves(components: seq<Component>, toolAllowance: int, ratio: Ratio)
    requires 0 <= toolAllowance
    requires ratio.Ratio? ==> ratio.denominator > 0
    requires Estimated(components, toolAllowance, ratio).Cost?
    ensures AllValid(components)
    ensures var cost := Estimated(components, toolAllowance, ratio);
            && cost.usd as real >= ExactEstimate(ExactTotal(components), toolAllowance, ratio)
            && 0 <= cost.usd <= MAX_USD && Ceil(cost.usd, UNITS_PER_MICRO) <= cost.micro <= SAFE_LIMIT
  {
    TotalsCover(components);
    EstimatedFromCovers(Totals(components), ExactTotal(components), toolAllowance, ratio);
    CoversRoundedUp(EstimatedFrom(Totals(components), toolAllowance, ratio));
  }

  lemma ScaleNonNegative(amount: int, ratio: Ratio, limit: int)
    requires 0 <= amount <= limit
    requires ratio.Ratio? ==> ratio.denominator > 0
    ensures Scale(amount, ratio, limit).Money? ==> 0 <= Scale(amount, ratio, limit).amount <= limit
  {
    if ratio.Ratio? && ratio.numerator > 0 {
      MulNonNegative(amount, ratio.numerator);
      CeilIsLeast(amount * ratio.numerator, ratio.denominator, 0);
    }
  }

  method EstimateCost(components: seq<Component>, toolAllowance: int, ratio: Ratio) returns (cost: Cost)
    requires 0 <= toolAllowance
    requires ratio.Ratio? ==> ratio.denominator > 0
    ensures cost == Estimated(components, toolAllowance, ratio)
  {
    var totals := Cost(0, 0);
    for index := 0 to |components|
      invariant totals.Cost? && totals == Totals(components[..index])
    {
      var component := components[index];
      assert components[..index + 1][..index] == components[..index];
      if component.units > 0 && component.unknown {
        NoTotals(components, index + 1);
        return NoEstimate;
      }
      var value := CeilUSD(component);
      if value.Unusable? {
        NoTotals(components, index + 1);
        return NoEstimate;
      }
      var sum := AddUSD(totals.usd, value.amount);
      var legacy := CeilMicroUSD(component);
      if sum.Unusable? || legacy.Unusable? {
        NoTotals(components, index + 1);
        return NoEstimate;
      }
      var legacySum := AddMicro(totals.micro, legacy.amount);
      if legacySum.Unusable? {
        NoTotals(components, index + 1);
        return NoEstimate;
      }
      totals := Cost(legacySum.amount, sum.amount);
    }
    assert components[..|components|] == components;
    var usd := AddUSD(totals.usd, toolAllowance);
    var allowance := CeilMicroFromUSD(toolAllowance);
    if usd.Unusable? || allowance.Unusable? {
      return NoEstimate;
    }
    var micro := AddMicro(totals.micro, allowance.amount);
    if micro.Unusable? {
      return NoEstimate;
    }
    var scaledUSD := Scale(usd.amount, ratio, MAX_USD);
    var scaledMicro := Scale(micro.amount, ratio, SAFE_LIMIT);
    if scaledUSD.Unusable? || scaledMicro.Unusable? {
      return NoEstimate;
    }
    return Cost(scaledMicro.amount, scaledUSD.amount);
  }

  // One unusable component spoils the whole estimate.
  lemma {:induction false} NoTotals(components: seq<Component>, index: nat)
    requires index <= |components| && Totals(components[..index]).NoEstimate?
    ensures Totals(components).NoEstimate?
    decreases |components|
  {
    var n := |components| - 1;
    if index == |components| {
      assert components[..index] == components;
    } else {
      assert components[..n][..index] == components[..index];
      NoTotals(components[..n], index);
    }
  }

  // ----- token counts -----

  function SaturatingAdd(left: int, right: int): int
  {
    if right > 0 && left > MAX_INT64 - right then MAX_INT64 else left + right
  }

  // validateContextCounts.
  predicate FitsContext(limit: int, input: int, output: int)
  {
    limit >= 0 && input >= 0 && output >= 0 && (limit == 0 || input + output <= limit)
  }

  method AddMediaAllowance(input: int, allowance: int, contextTokens: int, output: int) returns (total: int)
    requires 0 <= input <= MAX_INT64 && 0 <= output <= MAX_INT64 && contextTokens <= MAX_INT64 && allowance <= MAX_INT64
    ensures input <= total <= MAX_INT64
    ensures FitsContext(contextTokens, total, output) <==> FitsContext(contextTokens, input, output)
    ensures contextTokens > 0 && input + output < contextTokens && allowance >= contextTokens - input - output ==>
              total + output == contextTokens
    ensures contextTokens <= 0 || input + allowance + output <= contextTokens ==>
              total == if allowance <= 0 then input else SaturatingAdd(input, allowance)
  {
    if allowance <= 0 {
      return input;
    }
    var capped := allowance;
    if contextTokens > 0 {
      var room := contextTokens;
      if input >= room {
        return input;
      }
      room := room - input;
      if output >= room {
        return input;
      }
      room := room - output;
      if capped > room {
        capped := room;
      }
    }
    return SaturatingAdd(input, capped);
  }
}
