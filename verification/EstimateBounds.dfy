/** How far an estimate can be above the exact price: by less than one unit for each time it is rounded. */
module EstimateBounds {
  import opened Integers
  import opened Estimate

  lemma TimesBack(n: real, d: real)
    requires d > 0.0
    ensures n / d * d == n
  {
  }

  lemma CeilIsNear(numerator: int, denominator: int)
    requires numerator >= 0 && denominator > 0
    ensures (Ceil(numerator, denominator) as real) < numerator as real / denominator as real + 1.0
  {
    var c := Ceil(numerator, denominator);
    var q, r := numerator / denominator, numerator % denominator;
    assert numerator == denominator * q + r && 0 <= r < denominator;
    assert (c - 1) * denominator == c * denominator - denominator;
    assert (c - 1) * denominator < numerator;
    assert ((c - 1) * denominator) as real == (c - 1) as real * denominator as real;
    DivideStrictly((c - 1) as real, numerator as real, denominator as real);
  }

  lemma DivideStrictly(c: real, n: real, d: real)
    requires d > 0.0 && c * d < n
    ensures c < n / d
  {
    TimesBack(n, d);
    var gap := n / d - c;
    assert gap * d == n / d * d - c * d;
    assert gap * d > 0.0;
  }

  // A price times the units it is charged for, in 10^-18 dollars.
  function Charge(component: Component): int
  {
    component.price.numerator * component.units * 1_000_000_000_000_000_000
  }

  lemma ShareIs(component: Component)
    requires component.Valid()
    ensures Share(component) * UNITS_PER_MICRO == Charge(component)
  {
    assert Share(component) == component.price.numerator * component.units * 1_000_000;
  }

  // The exact price is the price times the units it is charged for, per unit of the price.
  lemma ExactIsThePrice(component: Component)
    requires component.Valid()
    ensures Exact(component) * Per(component) as real == Charge(component) as real
    ensures Per(component) == Pow10(component.price.scale) * component.unitsPerPrice
  {
    hide Share, Per, Pow10, Charge;
    ShareIs(component);
    PerIs(component);
    TimesBack(Charge(component) as real, Per(component) as real);
  }

  lemma PerIs(component: Component)
    requires component.Valid()
    ensures Per(component) == Pow10(component.price.scale) * component.unitsPerPrice
  {
  }

  // ----- components -----

  lemma MoveFactor(n: real, d: real, f: real)
    requires d > 0.0
    ensures n * f / d == n / d * f
  {
  }

  lemma PlusAdds(before: Cost, component: Component)
    requires before.Cost? && Plus(before, component).Cost?
    ensures component.Valid()
    ensures Plus(before, component).usd == before.usd + Ceil(Share(component) * UNITS_PER_MICRO, Per(component))
    ensures Plus(before, component).micro == before.micro + Ceil(Share(component), Per(component))
  {
    hide Ceil, Share, Per;
  }

  lemma PlusIsNear(before: Cost, component: Component)
    requires before.Cost? && Plus(before, component).Cost?
    ensures component.Valid()
    ensures Plus(before, component).usd as real < before.usd as real + Exact(component) + 1.0
    ensures (Plus(before, component).micro * UNITS_PER_MICRO) as real <
            (before.micro * UNITS_PER_MICRO) as real + Exact(component) + UNITS_PER_MICRO as real
  {
    hide Plus, Ceil, Share, Per;
    PlusAdds(before, component);
    CeilIsNear(Share(component) * UNITS_PER_MICRO, Per(component));
    CeilIsNear(Share(component), Per(component));
    MoveFactor(Share(component) as real, Per(component) as real, UNITS_PER_MICRO as real);
  }

  lemma {:induction false} TotalsAreNear(components: seq<Component>)
    requires Totals(components).Cost?
    ensures AllValid(components)
    ensures var totals, n := Totals(components), |components| as real;
            && totals.usd as real <= ExactTotal(components) + n
            && (components != [] ==> totals.usd as real < ExactTotal(components) + n)
            && (totals.micro * UNITS_PER_MICRO) as real <= ExactTotal(components) + n * UNITS_PER_MICRO as real
  {
    TotalsCover(components);
    if components != [] {
      var n := |components| - 1;
      TotalsCover(components[..n]);
      TotalsAreNear(components[..n]);
      PlusIsNear(Totals(components[..n]), components[n]);
    }
  }

  // ----- the whole estimate -----

  lemma WeighedBound(amount: real, bound: real, n: real, d: real)
    requires amount <= bound && n > 0.0 && d > 0.0
    ensures amount * n / d <= bound * (n / d)
  {
    WeightOrdered(amount, bound, n, d);
    WeightIs(amount, n, d);
    WeightIs(bound, n, d);
  }

  lemma WeightIs(x: real, n: real, d: real)
    requires d > 0.0
    ensures x * (n / d) == x * n / d
  {
  }

  lemma ProductIs(a: int, b: int, product: int)
    requires product == a * b
    ensures product as real == a as real * b as real
  {
  }

  lemma ScaleIsNear(amount: int, bound: real, ratio: Ratio, limit: int)
    requires amount >= 0 && amount as real <= bound
    requires ratio.Ratio? ==> ratio.denominator > 0
    requires Scale(amount, ratio, limit).Money?
    ensures var scaled := Scale(amount, ratio, limit).amount as real;
            && (ratio.Ratio? ==> scaled < bound * Weight(ratio) + 1.0)
            && (ratio.NoRatio? ==> scaled == amount as real)
  {
    hide Ceil;
    if ratio.Ratio? {
      var n, d := ratio.numerator, ratio.denominator;
      var product := amount * n;
      MulNonNegative(amount, n);
      CeilIsNear(product, d);
      assert Scale(amount, ratio, limit).amount == Ceil(product, d);
      ProductIs(amount, n, product);
      WeighedBound(amount as real, bound, n as real, d as real);
      assert product as real / d as real <= bound * (n as real / d as real);
    }
  }

  lemma AllowanceAdds(totals: Cost, toolAllowance: int)
    requires totals.Cost? && 0 <= toolAllowance && WithAllowance(totals, toolAllowance).Cost?
    ensures var cost := WithAllowance(totals, toolAllowance);
            && cost.usd == totals.usd + toolAllowance
            && cost.micro == totals.micro + Ceil(toolAllowance, UNITS_PER_MICRO)
  {
    hide Ceil;
  }

  lemma Spread(exact: real, n: real, weight: real)
    ensures (exact + n) * weight == exact * weight + n * weight
  {
  }

  lemma NearFrom(totals: Cost, exact: real, n: real, toolAllowance: int, ratio: Ratio)
    requires totals.Cost? && Covers(totals) && totals.usd as real <= exact + n && 0 <= toolAllowance
    requires ratio.Ratio? ==> ratio.denominator > 0
    requires EstimatedFrom(totals, toolAllowance, ratio).Cost?
    ensures var usd := EstimatedFrom(totals, toolAllowance, ratio).usd as real;
            && (ratio.Ratio? ==> usd < ExactEstimate(exact, toolAllowance, ratio) + n * Weight(ratio) + 1.0)
            && (ratio.NoRatio? ==> usd == totals.usd as real + toolAllowance as real)
  {
    hide Ceil, Scale, WithAllowance, Weight;
    AllowanceAdds(totals, toolAllowance);
    var cost := WithAllowance(totals, toolAllowance);
    var whole := exact + toolAllowance as real;
    ScaleIsNear(cost.usd, whole + n, ratio, MAX_USD);
    Spread(whole, n, Weight(ratio));
  }

  lemma HasTotals(totals: Cost, toolAllowance: int, ratio: Ratio)
    requires 0 <= toolAllowance
    requires ratio.Ratio? ==> ratio.denominator > 0
    requires EstimatedFrom(totals, toolAllowance, ratio).Cost?
    ensures totals.Cost?
  {
  }

  // What the dollars may exceed the exact price by: each component's rounding, weighted, and the ratio's own.
  ghost function Excess(components: seq<Component>, ratio: Ratio): real
    requires ratio.Ratio? ==> ratio.denominator > 0
  {
    |components| as real * Weight(ratio) + if ratio.Ratio? then 1.0 else 0.0
  }

  lemma NothingIsWeighed(exact: real, toolAllowance: int, n: real)
    ensures ExactEstimate(exact, toolAllowance, NoRatio) == exact + toolAllowance as real
    ensures n * Weight(NoRatio) == n
  {
  }

  /** Whenever an estimate is produced, the dollars exceed the exact price by less than one unit for each rounding,
      and not at all when nothing is rounded. */
  lemma EstimateIsNear(components: seq<Component>, toolAllowance: int, ratio: Ratio)
    requires 0 <= toolAllowance
    requires ratio.Ratio? ==> ratio.denominator > 0
    requires Estimated(components, toolAllowance, ratio).Cost?
    ensures AllValid(components)
    ensures var usd := Estimated(components, toolAllowance, ratio).usd as real;
            var exact := ExactEstimate(ExactTotal(components), toolAllowance, ratio);
            && (components != [] || ratio.Ratio? ==> usd < exact + Excess(components, ratio))
            && (components == [] && ratio.NoRatio? ==> usd == exact)
  {
    hide Totals, EstimatedFrom, Weight, ExactEstimate, Covers;
    HasTotals(Totals(components), toolAllowance, ratio);
    TotalsCover(components);
    TotalsAreNear(components);
    var n := |components| as real;
    NearFrom(Totals(components), ExactTotal(components), n, toolAllowance, ratio);
    NothingIsWeighed(ExactTotal(components), toolAllowance, n);
    NoComponents(components);
  }

  lemma NoComponents(components: seq<Component>)
    requires AllValid(components)
    ensures components == [] ==> Totals(components) == Cost(0, 0) && ExactTotal(components) == 0.0
  {
  }

  lemma MicroNearFrom(totals: Cost, exact: real, n: real, toolAllowance: int, ratio: Ratio)
    requires totals.Cost? && Covers(totals) && 0 <= toolAllowance
    requires totals.micro as real <= exact / 1_000_000_000_000.0 + n
    requires ratio.Ratio? ==> ratio.denominator > 0
    requires EstimatedFrom(totals, toolAllowance, ratio).Cost?
    ensures var micro := EstimatedFrom(totals, toolAllowance, ratio).micro as real;
            micro < ExactEstimate(exact, toolAllowance, ratio) / 1_000_000_000_000.0 + (n + 1.0) * Weight(ratio)
                    + if ratio.Ratio? then 1.0 else 0.0
  {
    hide Ceil, Scale, WithAllowance, Weight;
    AllowanceAdds(totals, toolAllowance);
    CeilIsNear(toolAllowance, UNITS_PER_MICRO);
    CeilIsLeast(toolAllowance, UNITS_PER_MICRO, 0);
    var cost := WithAllowance(totals, toolAllowance);
    var whole := (exact + toolAllowance as real) / 1_000_000_000_000.0;
    assert cost.micro as real < whole + (n + 1.0);
    ScaleIsNear(cost.micro, whole + (n + 1.0), ratio, SAFE_LIMIT);
    Spread(whole, n + 1.0, Weight(ratio));
    NothingIsWeighed(exact, toolAllowance, n + 1.0);
    MoveFactor(exact + toolAllowance as real, 1_000_000_000_000.0, Weight(ratio));
  }

  /** The same for the micro-dollars, which are rounded for the allowance as well. */
  lemma MicroEstimateIsNear(components: seq<Component>, toolAllowance: int, ratio: Ratio)
    requires 0 <= toolAllowance
    requires ratio.Ratio? ==> ratio.denominator > 0
    requires Estimated(components, toolAllowance, ratio).Cost?
    ensures AllValid(components)
    ensures var micro := Estimated(components, toolAllowance, ratio).micro as real;
            var exact := ExactEstimate(ExactTotal(components), toolAllowance, ratio);
            micro < exact / 1_000_000_000_000.0 + (|components| as real + 1.0) * Weight(ratio)
                    + if ratio.Ratio? then 1.0 else 0.0
  {
    hide Totals, EstimatedFrom, Weight, ExactEstimate, Covers;
    HasTotals(Totals(components), toolAllowance, ratio);
    TotalsCover(components);
    TotalsAreNear(components);
    var micro := Totals(components).micro;
    assert (micro * UNITS_PER_MICRO) as real == micro as real * 1_000_000_000_000.0;
    MicroNearFrom(Totals(components), ExactTotal(components), |components| as real, toolAllowance, ratio);
  }

  // ----- when there is an estimate -----

  function SumUSD(components: seq<Component>): (sum: int)
    requires AllValid(components)
    ensures sum >= 0
  {
    if components == [] then 0
    else
      var n := |components| - 1;
      CeilIsLeast(Share(components[n]) * UNITS_PER_MICRO, Per(components[n]), 0);
      SumUSD(components[..n]) + Ceil(Share(components[n]) * UNITS_PER_MICRO, Per(components[n]))
  }

  function SumMicro(components: seq<Component>): (sum: int)
    requires AllValid(components)
    ensures sum >= 0
  {
    if components == [] then 0
    else
      var n := |components| - 1;
      CeilIsLeast(Share(components[n]), Per(components[n]), 0);
      SumMicro(components[..n]) + Ceil(Share(components[n]), Per(components[n]))
  }

  // Every price that is charged for is known.
  ghost predicate AllKnown(components: seq<Component>)
  {
    forall i :: 0 <= i < |components| ==> components[i].units <= 0 || !components[i].unknown
  }

  ghost predicate Addable(components: seq<Component>)
  {
    AllValid(components) && AllKnown(components) && SumUSD(components) <= MAX_USD && SumMicro(components) <= SAFE_LIMIT
  }

  lemma PlusExactly(before: Cost, component: Component)
    requires before.Cost? && 0 <= before.usd && 0 <= before.micro
    ensures Plus(before, component).Cost? <==>
              && component.Valid() && (component.units <= 0 || !component.unknown)
              && before.usd + Ceil(Share(component) * UNITS_PER_MICRO, Per(component)) <= MAX_USD
              && before.micro + Ceil(Share(component), Per(component)) <= SAFE_LIMIT
  {
    if component.Valid() {
      CeilIsLeast(Share(component) * UNITS_PER_MICRO, Per(component), 0);
      CeilIsLeast(Share(component), Per(component), 0);
    }
    hide Ceil, Share, Per;
  }

  lemma {:induction false} TotalsExactly(components: seq<Component>)
    ensures Totals(components).Cost? <==> Addable(components)
    ensures Addable(components) ==> Totals(components) == Cost(SumMicro(components), SumUSD(components))
  {
    hide Plus, Ceil, Share, Per;
    if components != [] {
      var n := |components| - 1;
      var front, last := components[..n], components[n];
      TotalsExactly(front);
      assert components == front + [last];
      assert AllValid(components) <==> AllValid(front) && last.Valid();
      assert AllKnown(components) <==> AllKnown(front) && (last.units <= 0 || !last.unknown);
      if AllValid(components) {
        CeilIsLeast(Share(last) * UNITS_PER_MICRO, Per(last), 0);
        CeilIsLeast(Share(last), Per(last), 0);
      }
      if Totals(front).Cost? {
        PlusExactly(Totals(front), last);
        if Plus(Totals(front), last).Cost? {
          PlusAdds(Totals(front), last);
        }
      }
    }
  }

  // An amount under the safety ratio.
  function Weighed(amount: int, ratio: Ratio): int
    requires amount >= 0 && (ratio.Ratio? ==> ratio.numerator > 0 && ratio.denominator > 0)
  {
    if ratio.NoRatio? then amount
    else
      MulNonNegative(amount, ratio.numerator);
      Ceil(amount * ratio.numerator, ratio.denominator)
  }

  ghost predicate Estimable(components: seq<Component>, toolAllowance: int, ratio: Ratio)
    requires 0 <= toolAllowance
    requires ratio.Ratio? ==> ratio.denominator > 0
  {
    CeilIsLeast(toolAllowance, UNITS_PER_MICRO, 0);
    && Addable(components) && (ratio.Ratio? ==> ratio.numerator > 0)
    && var usd := SumUSD(components) + toolAllowance;
       var micro := SumMicro(components) + Ceil(toolAllowance, UNITS_PER_MICRO);
       && usd <= MAX_USD && Weighed(usd, ratio) <= MAX_USD
       && micro <= SAFE_LIMIT && Weighed(micro, ratio) <= SAFE_LIMIT
  }

  /** There is an estimate exactly when every component is valid and known, the ratio is positive and nothing
      overflows, and then it is the sums, with the allowance, under the ratio. */
  lemma EstimateExactly(components: seq<Component>, toolAllowance: int, ratio: Ratio)
    requires 0 <= toolAllowance
    requires ratio.Ratio? ==> ratio.denominator > 0
    ensures Estimated(components, toolAllowance, ratio).Cost? <==> Estimable(components, toolAllowance, ratio)
    ensures Estimable(components, toolAllowance, ratio) ==>
              Estimated(components, toolAllowance, ratio) ==
              Cost(Weighed(SumMicro(components) + Ceil(toolAllowance, UNITS_PER_MICRO), ratio),
                   Weighed(SumUSD(components) + toolAllowance, ratio))
  {
    hide Ceil, Totals, Addable, SumUSD, SumMicro;
    TotalsExactly(components);
    CeilIsLeast(toolAllowance, UNITS_PER_MICRO, 0);
  }
}
