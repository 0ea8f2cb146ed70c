/**
 Financing model of internal/risk/leverage.go: the lowest leverage step that fits a margin
 budget without giving up the liquidation stress buffer.  Decimal quantities are exact reals;
 the floor and ceiling keep the slack that the program adds before rounding to a step.
 */
module LeverageModel {
  import opened Wrappers

  /** The 1e-12 added before a floor and subtracted before a ceiling. */
  const FLOAT_SLACK: real := 0.000000000001

  /** The 1e-9 used when two leverages are compared. */
  const COMPARE_TOLERANCE: real := 0.000000001

  /** Slack of a step rounding; zero is exact arithmetic, FLOAT_SLACK is the program. */
  type Slack = s: real | 0.0 <= s <= COMPARE_TOLERANCE

  datatype Input = Input(
    equity: real,
    proposedNotional: real,
    stopFraction: real,
    volatilityFraction: real,
    maxLeverage: real,
    minLeverage: real,
    maxMarginPct: real,
    step: real,
    minLiquidationBuffer: real,
    stopMultiple: real,
    volatilityMultiple: real,
    reservePct: real)

  datatype Plan = Plan(
    requiredLeverage: real,
    safeMaxLeverage: real,
    selectedLeverage: real,
    stopFraction: real,
    volatilityFraction: real,
    requiredBuffer: real,
    marginBudget: real,
    estimatedMargin: real,
    maxNotional: real,
    downsized: bool)

  datatype Financing = Financing(notional: real, plan: Plan)

  datatype LeverageError =
    | NonPositiveNotional
    | NegativeFraction
    | InvalidLimits
    | InvalidStress
    | NoFeasibleLeverage
    | MinimumAboveSafe
    | SelectedAboveSafe

  function Min(a: real, b: real): real { if a < b then a else b }

  function Max(a: real, b: real): real { if a > b then a else b }

  /** Declarative meaning of the variadic decimalMax. */
  ghost predicate IsMaximum(m: real, values: seq<real>) {
    m in values && forall i :: 0 <= i < |values| ==> values[i] <= m
  }

  method DecimalMax(values: seq<real>) returns (result: real)
    requires values != []
    ensures IsMaximum(result, values)
  {
    result := values[0];
    for i := 1 to |values|
      invariant result in values
      invariant forall j :: 0 <= j < i ==> values[j] <= result
    {
      if values[i] > result {
        result := values[i];
      }
    }
  }

  /** floorLeverageStep, counted in steps. */
  function FloorUnits(value: real, step: real, slack: Slack): int
    requires step > 0.0
  {
    (value / step + slack).Floor
  }

  /** ceilLeverageStep, counted in steps. */
  function CeilUnits(value: real, step: real, slack: Slack): int
    requires step > 0.0
  {
    -((-(value / step - slack)).Floor)
  }

  function FloorStep(value: real, step: real, slack: Slack): real
    requires step > 0.0
  {
    FloorUnits(value, step, slack) as real * step
  }

  function CeilStep(value: real, step: real, slack: Slack): real
    requires step > 0.0
  {
    CeilUnits(value, step, slack) as real * step
  }

  /** k steps stay at or below the value, up to the slack; both sides are counted in steps. */
  predicate Fits(k: int, value: real, step: real, slack: Slack)
    requires step > 0.0
  {
    k as real <= value / step + slack
  }

  /** k steps reach the value, up to the slack; both sides are counted in steps. */
  predicate Covers(k: int, value: real, step: real, slack: Slack)
    requires step > 0.0
  {
    k as real >= value / step - slack
  }

  /** The same two comparisons in leverage instead of steps. */
  lemma StepsAsLeverage(k: int, value: real, step: real, slack: Slack)
    requires step > 0.0
    ensures Fits(k, value, step, slack) <==> k as real * step <= value + slack * step
    ensures Covers(k, value, step, slack) <==> k as real * step >= value - slack * step
  {
    var q := value / step;
    assert q * step == value;
    Ordered(k as real, q + slack, step);
    Ordered(q - slack, k as real, step);
  }

  lemma Ordered(a: real, b: real, step: real)
    requires step > 0.0
    ensures a <= b <==> a * step <= b * step
  {
    if a <= b {
      Scale(a, b, step);
    } else {
      StrictScale(b, a, step);
    }
  }

  /** The floor is the greatest multiple that fits. */
  lemma FloorIsGreatest(value: real, step: real, slack: Slack)
    requires step > 0.0
    ensures IsGreatestFit(FloorStep(value, step, slack), value, step, slack)
  {
    assert Fits(FloorUnits(value, step, slack), value, step, slack);
  }

  /** The ceiling is the least multiple that covers. */
  lemma CeilIsLeast(value: real, step: real, slack: Slack)
    requires step > 0.0
    ensures IsLeastCover(CeilStep(value, step, slack), value, step, slack)
  {
    assert Covers(CeilUnits(value, step, slack), value, step, slack);
  }

  lemma Scale(a: real, b: real, step: real)
    requires a <= b && step > 0.0
    ensures a * step <= b * step
  {
  }

  lemma StrictScale(a: real, b: real, step: real)
    requires a < b && step > 0.0
    ensures a * step < b * step
  {
  }

  /** A missing minimum leverage counts as one. */
  function MinimumLeverage(input: Input): real {
    if input.minLeverage > 0.0 then input.minLeverage else 1.0
  }

  /** B: the liquidation distance the position has to keep. */
  function StressBuffer(input: Input): real {
    Max(Max(input.minLiquidationBuffer, input.stopFraction * input.stopMultiple),
        input.volatilityFraction * input.volatilityMultiple) + input.reservePct
  }

  /** M: the margin that may be committed. */
  function MarginBudget(input: Input): real {
    input.equity * input.maxMarginPct
  }

  /** L_safe in steps. */
  function SafeUnits(input: Input, slack: Slack): int
    requires input.step > 0.0 && StressBuffer(input) > 0.0
  {
    FloorUnits(Min(input.maxLeverage, 1.0 / StressBuffer(input)), input.step, slack)
  }

  function SafeLeverage(input: Input, slack: Slack): real
    requires input.step > 0.0 && StressBuffer(input) > 0.0
  {
    SafeUnits(input, slack) as real * input.step
  }

  /** The first argument check of the source that fails, if any. */
  function InputError(input: Input): Option<LeverageError> {
    if input.equity <= 0.0 || input.proposedNotional <= 0.0 then Some(NonPositiveNotional)
    else if input.stopFraction < 0.0 || input.volatilityFraction < 0.0 then Some(NegativeFraction)
    else if input.maxLeverage < 1.0 || MinimumLeverage(input) < 1.0 || MinimumLeverage(input) > input.maxLeverage
            || input.maxMarginPct <= 0.0 || input.maxMarginPct > 1.0
            || input.step <= 0.0 || input.step > 1.0 then Some(InvalidLimits)
    else if input.minLiquidationBuffer <= 0.0 || input.stopMultiple <= 0.0
            || input.volatilityMultiple <= 0.0 || input.reservePct < 0.0 then Some(InvalidStress)
    else if StressBuffer(input) >= 1.0 then Some(NoFeasibleLeverage)
    else None
  }

  /** A ceiling of anything not below one is a positive leverage. */
  lemma CeilPositive(value: real, step: real, slack: Slack)
    requires 0.0 < step <= 1.0 <= value
    ensures CeilUnits(value, step, slack) >= 1
    ensures CeilStep(value, step, slack) > 0.0
  {
    var q := value / step;
    assert q * step == value;
    if q < 1.0 {
      StrictScale(q, 1.0, step);
    }
    StrictScale(0.0, CeilUnits(value, step, slack) as real, step);
  }

  /**
   The part of the calculation after the safe leverage is known: cut the notional to what the budget
   carries at that leverage, then take the least step that finances it.
   */
  function Finance(proposed: real, minimum: real, budget: real, safe: real, step: real, slack: Slack)
    : Result<Financing, LeverageError>
    requires 0.0 < step <= 1.0 <= minimum && budget > 0.0
  {
    if safe + COMPARE_TOLERANCE < minimum then
      Err(MinimumAboveSafe)
    else
      var maxNotional := budget * safe;
      var downsized := proposed > maxNotional;
      var notional := if downsized then maxNotional else proposed;
      var required := CeilStep(Max(1.0, proposed / budget), step, slack);
      var selected := CeilStep(Max(minimum, notional / budget), step, slack);
      if selected > safe + COMPARE_TOLERANCE then
        Err(SelectedAboveSafe)
      else
        CeilPositive(Max(minimum, notional / budget), step, slack);
        Ok(Financing(notional, Plan(required, safe, selected, 0.0, 0.0, 0.0, budget,
                                    notional / selected, maxNotional, downsized)))
  }

  function CalculateLeverage(input: Input, slack: Slack): Result<Financing, LeverageError> {
    match InputError(input)
    case Some(error) => Err(error)
    case None =>
      AcceptedTerms(input);
      match Finance(input.proposedNotional, MinimumLeverage(input), MarginBudget(input),
                    SafeLeverage(input, slack), input.step, slack)
      case Err(error) => Err(error)
      case Ok(f) =>
        Ok(f.(plan := f.plan.(stopFraction := input.stopFraction,
                              volatilityFraction := input.volatilityFraction,
                              requiredBuffer := StressBuffer(input))))
  }

  /** What the argument checks establish. */
  lemma AcceptedTerms(input: Input)
    requires InputError(input).None?
    ensures MarginBudget(input) > 0.0
    ensures 0.0 < input.step <= 1.0 <= MinimumLeverage(input) <= input.maxLeverage
    ensures 0.0 < StressBuffer(input) < 1.0
  {
    StrictScale(0.0, input.equity, input.maxMarginPct);
  }

  /** l is the greatest multiple of step not above value, up to slack steps. */
  ghost predicate IsGreatestFit(l: real, value: real, step: real, slack: Slack)
    requires step > 0.0
  {
    exists k ::
      && Fits(k, value, step, slack)
      && l == k as real * step
      && forall j :: Fits(j, value, step, slack) ==> j <= k
  }

  /** l is the least multiple of step that reaches value, up to slack steps. */
  ghost predicate IsLeastCover(l: real, value: real, step: real, slack: Slack)
    requires step > 0.0
  {
    exists k ::
      && Covers(k, value, step, slack)
      && l == k as real * step
      && forall j :: Covers(j, value, step, slack) ==> k <= j
  }

  /** The buffer is the largest of the three stress distances plus the reserve, whoever computes the maximum. */
  lemma StressBufferIsMaximum(input: Input, m: real)
    requires IsMaximum(m, [input.minLiquidationBuffer,
                           input.stopFraction * input.stopMultiple,
                           input.volatilityFraction * input.volatilityMultiple])
    ensures StressBuffer(input) == m + input.reservePct
  {
    var values := [input.minLiquidationBuffer,
                   input.stopFraction * input.stopMultiple,
                   input.volatilityFraction * input.volatilityMultiple];
    assert values[0] <= m && values[1] <= m && values[2] <= m;
  }

  lemma CeilMonotone(a: real, b: real, step: real, slack: Slack)
    requires step > 0.0 && a <= b
    ensures CeilUnits(a, step, slack) <= CeilUnits(b, step, slack)
  {
    Ordered(a / step, b / step, step);
    assert a / step * step == a && b / step * step == b;
  }

  /** The ceiling of a maximum is the larger ceiling. */
  lemma CeilOfMax(a: real, b: real, step: real, slack: Slack)
    requires step > 0.0
    ensures
      var ca, cb := CeilUnits(a, step, slack), CeilUnits(b, step, slack);
      CeilUnits(Max(a, b), step, slack) == if ca > cb then ca else cb
  {
    CeilMonotone(a, Max(a, b), step, slack);
    CeilMonotone(b, Max(a, b), step, slack);
  }

  lemma SlackIsSmall(step: real, slack: Slack)
    requires 0.0 < step <= 1.0
    ensures 0.0 <= slack * step <= slack
  {
    if slack > 0.0 {
      StrictScale(0.0, slack, step);
      Scale(step, 1.0, slack);
      assert step * slack == slack * step;
    } else {
      assert slack == 0.0;
      assert 0.0 * step == 0.0;
    }
  }

  /** A minimum out of tolerance is a minimum whose rounding is more than the safe steps. */
  lemma MinimumOutOfReach(minimum: real, safe: int, step: real, slack: Slack)
    requires 0.0 < step <= 1.0
    requires safe as real * step + COMPARE_TOLERANCE < minimum
    ensures CeilUnits(minimum, step, slack) > safe
  {
    hide CeilUnits, Covers;
    var k := CeilUnits(minimum, step, slack);
    SlackIsSmall(step, slack);
    CeilCovers(minimum, step, slack);
    StepsAsLeverage(k, minimum, step, slack);
    var reached, reachable := k as real * step, safe as real * step;
    assert reached >= minimum - slack * step;
    assert reached > reachable;
    Ordered(k as real, safe as real, step);
  }

  lemma CeilCovers(value: real, step: real, slack: Slack)
    requires step > 0.0
    ensures Covers(CeilUnits(value, step, slack), value, step, slack)
  {
  }

  /** Steps coarser than the comparison tolerance are compared exactly. */
  lemma StepsCompareExactly(a: int, b: int, step: real)
    requires step > COMPARE_TOLERANCE
    ensures a as real * step > b as real * step + COMPARE_TOLERANCE <==> a > b
    ensures a <= b ==> a as real * step <= b as real * step
  {
    IntegersApart(a, b);
    WholeStepsApart(a as real * step, b as real * step, a as real, b as real, step);
  }

  /** Notional the budget carries at a leverage of so many steps needs no more steps than that. */
  lemma NotionalWithinSteps(notional: real, budget: real, leverage: real, safe: int, step: real, slack: Slack)
    requires step > 0.0 && budget > 0.0
    requires leverage == safe as real * step
    requires notional <= budget * leverage
    ensures CeilUnits(notional / budget, step, slack) <= safe
  {
    var ratio := notional / budget;
    assert ratio * budget == notional;
    Ordered(ratio, leverage, budget);
    var q := ratio / step;
    assert q * step == ratio;
    Ordered(q, safe as real, step);
  }

  /** A leverage that reaches notional over budget keeps the notional within budget, up to the slack. */
  lemma CoverKeepsMargin(notional: real, budget: real, floor: real, step: real, slack: Slack)
    requires step > 0.0 && budget > 0.0
    ensures notional <= budget * (CeilStep(Max(floor, notional / budget), step, slack) + slack * step)
  {
    var ratio := notional / budget;
    assert ratio * budget == notional;
    var x := Max(floor, ratio);
    var k := CeilUnits(x, step, slack);
    StepsAsLeverage(k, x, step, slack);
    assert Covers(k, x, step, slack);
    Scale(ratio, k as real * step + slack * step, budget);
  }

  /** What the comparison with the safe leverage may overlook: nothing, unless the steps are finer than it. */
  function Overlooked(step: real): real { if step > COMPARE_TOLERANCE then 0.0 else COMPARE_TOLERANCE }

  /** A selection that passed the comparison with the safe leverage: on coarse steps that comparison is exact. */
  lemma SelectionWithinSafe(input: Input, value: real, slack: Slack)
    requires input.step > 0.0 && StressBuffer(input) > 0.0
    requires CeilStep(value, input.step, slack) <= SafeLeverage(input, slack) + COMPARE_TOLERANCE
    ensures CeilStep(value, input.step, slack) <= SafeLeverage(input, slack) + Overlooked(input.step)
  {
    hide CeilUnits, SafeUnits, StressBuffer;
    if input.step > COMPARE_TOLERANCE {
      IntegersApart(CeilUnits(value, input.step, slack), SafeUnits(input, slack));
      WithinTolerance(CeilStep(value, input.step, slack), SafeLeverage(input, slack),
                      CeilUnits(value, input.step, slack) as real, SafeUnits(input, slack) as real, input.step);
    }
  }

  lemma IntegersApart(k: int, j: int)
    ensures k as real <= j as real || k as real >= j as real + 1.0
  {
    if k > j {
      assert k >= j + 1;
    }
  }

  lemma WithinTolerance(selected: real, safe: real, a: real, b: real, step: real)
    requires step > COMPARE_TOLERANCE
    requires selected == a * step && safe == b * step
    requires a <= b || a >= b + 1.0
    requires selected <= safe + COMPARE_TOLERANCE
    ensures selected <= safe
  {
    WholeStepsApart(selected, safe, a, b, step);
  }

  /** Multiples of a step that are in order, or at least one step apart. */
  lemma WholeStepsApart(x: real, y: real, a: real, b: real, step: real)
    requires step > 0.0
    requires x == a * step && y == b * step
    ensures a <= b ==> x <= y
    ensures a >= b + 1.0 ==> x >= y + step
  {
    if a <= b {
      Scale(a, b, step);
    } else if a >= b + 1.0 {
      Scale(b + 1.0, a, step);
      assert (b + 1.0) * step == y + step;
    }
  }

  /** A notional that is exactly so many steps of budget is financed in full, whatever the slack. */
  lemma ExactStepsAreFinanced(notional: real, budget: real, k: int, floor: real, step: real, slack: Slack)
    requires step > 0.0 && budget > 0.0
    requires notional == budget * (k as real * step)
    ensures notional <= budget * CeilStep(Max(floor, notional / budget), step, slack)
  {
    var ratio := notional / budget;
    var leverage := k as real * step;
    assert ratio == leverage;
    assert ratio / step == k as real;
    assert CeilUnits(ratio, step, slack) >= k;
    CeilMonotone(ratio, Max(floor, ratio), step, slack);
    Scale(k as real, CeilUnits(Max(floor, ratio), step, slack) as real, step);
    Scale(leverage, CeilStep(Max(floor, ratio), step, slack), budget);
  }

  /** The parts of a financing. */
  lemma FinanceParts(proposed: real, minimum: real, budget: real, safe: real, step: real, slack: Slack)
    requires 0.0 < step <= 1.0 <= minimum && budget > 0.0
    requires Finance(proposed, minimum, budget, safe, step, slack).Ok?
    ensures
      var f := Finance(proposed, minimum, budget, safe, step, slack).value;
      && f.notional == Min(proposed, f.plan.maxNotional)
      && f.plan.maxNotional == budget * safe
      && (f.plan.downsized <==> f.notional < proposed)
      && f.plan.selectedLeverage == CeilStep(Max(minimum, f.notional / budget), step, slack)
      && f.plan.requiredLeverage == CeilStep(Max(1.0, proposed / budget), step, slack)
      && f.plan.safeMaxLeverage == safe
      && 0.0 < f.plan.selectedLeverage <= safe + COMPARE_TOLERANCE
      && f.plan.estimatedMargin == f.notional / f.plan.selectedLeverage
  {
    var f := Finance(proposed, minimum, budget, safe, step, slack).value;
    CeilPositive(Max(minimum, f.notional / budget), step, slack);
  }

  /** A financing, case by case. */
  lemma FinanceByCases(proposed: real, minimum: real, budget: real, safe: real, step: real, slack: Slack)
    requires 0.0 < step <= 1.0 <= minimum && budget > 0.0
    ensures
      var notional := if proposed > budget * safe then budget * safe else proposed;
      var leverage := CeilStep(Max(minimum, notional / budget), step, slack);
      && leverage > 0.0
      && Finance(proposed, minimum, budget, safe, step, slack) ==
         if safe + COMPARE_TOLERANCE < minimum then Err(MinimumAboveSafe)
         else if leverage > safe + COMPARE_TOLERANCE then Err(SelectedAboveSafe)
         else Ok(Financing(notional, Plan(CeilStep(Max(1.0, proposed / budget), step, slack), safe, leverage, 0.0, 0.0, 0.0,
                                          budget, notional / leverage, budget * safe, proposed > budget * safe)))
  {
    hide CeilStep;
    CeilPositive(Max(minimum, (if proposed > budget * safe then budget * safe else proposed) / budget), step, slack);
  }

  /** The selection exceeds the safe leverage exactly when the minimum alone already does. */
  lemma OnlyTheMinimumCanExceed(
    notional: real, minimum: real, budget: real, leverage: real, safe: int, step: real, slack: Slack)
    requires step > 0.0 && budget > 0.0
    requires leverage == safe as real * step
    requires notional <= budget * leverage
    ensures CeilStep(Max(minimum, notional / budget), step, slack) > leverage + COMPARE_TOLERANCE <==>
            CeilStep(minimum, step, slack) > leverage + COMPARE_TOLERANCE
  {
    hide CeilUnits;
    NotionalWithinSteps(notional, budget, leverage, safe, step, slack);
    CeilOfMax(minimum, notional / budget, step, slack);
    if CeilUnits(Max(minimum, notional / budget), step, slack) != CeilUnits(minimum, step, slack) {
      Scale(CeilUnits(notional / budget, step, slack) as real, safe as real, step);
      Scale(CeilUnits(minimum, step, slack) as real, safe as real, step);
    }
  }

  /** A financing fails exactly when the minimum leverage, as it is or rounded, is above the safe leverage. */
  lemma FinanceFailsExactly(
    proposed: real, minimum: real, budget: real, leverage: real, safe: int, step: real, slack: Slack)
    requires 0.0 < step <= 1.0 <= minimum && budget > 0.0
    requires leverage == safe as real * step
    ensures Finance(proposed, minimum, budget, leverage, step, slack).Err? <==>
            Max(minimum, CeilStep(minimum, step, slack)) > leverage + COMPARE_TOLERANCE
    ensures step > COMPARE_TOLERANCE ==>
      (Finance(proposed, minimum, budget, leverage, step, slack).Err? <==> CeilUnits(minimum, step, slack) > safe)
  {
    hide CeilUnits, CeilStep;
    if step > COMPARE_TOLERANCE {
      RoundedMinimum(minimum, leverage, safe, step, slack);
    }
    if leverage + COMPARE_TOLERANCE >= minimum {
      var cap := budget * leverage;
      OnlyTheMinimumCanExceed(if proposed > cap then cap else proposed, minimum, budget, leverage, safe, step, slack);
    }
  }

  /** On coarse steps the rounded minimum decides, in whole steps. */
  lemma RoundedMinimum(minimum: real, leverage: real, safe: int, step: real, slack: Slack)
    requires COMPARE_TOLERANCE < step <= 1.0 && leverage == safe as real * step
    ensures Max(minimum, CeilStep(minimum, step, slack)) > leverage + COMPARE_TOLERANCE <==>
            CeilUnits(minimum, step, slack) > safe
  {
    hide CeilUnits;
    StepsCompareExactly(CeilUnits(minimum, step, slack), safe, step);
    if leverage + COMPARE_TOLERANCE < minimum {
      MinimumOutOfReach(minimum, safe, step, slack);
    }
  }

  lemma SafeIsGreatest(input: Input, slack: Slack)
    requires input.step > 0.0 && StressBuffer(input) > 0.0
    ensures IsGreatestFit(SafeLeverage(input, slack), Min(input.maxLeverage, 1.0 / StressBuffer(input)), input.step, slack)
  {
    FloorIsGreatest(Min(input.maxLeverage, 1.0 / StressBuffer(input)), input.step, slack);
  }

  /**
   Main result.  A success finances the largest notional the budget allows at the safe leverage, with
   the least leverage step that reaches both the minimum and that notional; the safe leverage is
   the greatest step within the venue cap and the stress distance.
   */
  lemma FinancingIsOptimal(input: Input, slack: Slack)
    ensures CalculateLeverage(input, slack).Ok? ==> InputError(input).None? && MarginBudget(input) > 0.0
    ensures CalculateLeverage(input, slack).Ok? ==>
      var f := CalculateLeverage(input, slack).value;
      var budget := MarginBudget(input);
      var safe := f.plan.safeMaxLeverage;
      && IsGreatestFit(safe, Min(input.maxLeverage, 1.0 / StressBuffer(input)), input.step, slack)
      && f.notional == Min(input.proposedNotional, f.plan.maxNotional)
      && f.plan.maxNotional == budget * safe
      && (f.plan.downsized <==> f.notional < input.proposedNotional)
      && IsLeastCover(f.plan.selectedLeverage, Max(MinimumLeverage(input), f.notional / budget), input.step, slack)
      && IsLeastCover(f.plan.requiredLeverage, Max(1.0, input.proposedNotional / budget), input.step, slack)
  {
    hide *;
    if CalculateLeverage(input, slack).Ok? {
      Parts(input, slack);
      AcceptedTerms(input);
      SafeIsGreatest(input, slack);
      var f := CalculateLeverage(input, slack).value;
      CeilIsLeast(Max(MinimumLeverage(input), f.notional / MarginBudget(input)), input.step, slack);
      CeilIsLeast(Max(1.0, input.proposedNotional / MarginBudget(input)), input.step, slack);
    }
  }

  /** The parts of a successful calculation, by name. */
  lemma Parts(input: Input, slack: Slack)
    requires CalculateLeverage(input, slack).Ok?
    ensures InputError(input).None? && MarginBudget(input) > 0.0
    ensures
      var f := CalculateLeverage(input, slack).value;
      var budget := MarginBudget(input);
      && f.plan.safeMaxLeverage == SafeLeverage(input, slack)
      && f.notional == Min(input.proposedNotional, f.plan.maxNotional)
      && f.plan.maxNotional == budget * f.plan.safeMaxLeverage
      && (f.plan.downsized <==> f.notional < input.proposedNotional)
      && f.plan.selectedLeverage == CeilStep(Max(MinimumLeverage(input), f.notional / budget), input.step, slack)
      && f.plan.requiredLeverage == CeilStep(Max(1.0, input.proposedNotional / budget), input.step, slack)
      && 0.0 < f.plan.selectedLeverage <= f.plan.safeMaxLeverage + COMPARE_TOLERANCE
      && f.plan.estimatedMargin == f.notional / f.plan.selectedLeverage
      && f.plan.requiredBuffer == StressBuffer(input)
      && f.plan.marginBudget == budget
  {
    hide MarginBudget, SafeLeverage, StressBuffer, MinimumLeverage, InputError, CeilStep;
    AcceptedTerms(input);
    FinanceParts(input.proposedNotional, MinimumLeverage(input), MarginBudget(input),
                 SafeLeverage(input, slack), input.step, slack);
  }

  /**
   The cap on the notional is the greatest notional that the margin budget carries at any leverage step
   within the venue cap and the stress distance.
   */
  lemma MaxNotionalIsCapacity(input: Input, slack: Slack)
    ensures CalculateLeverage(input, slack).Ok? ==> InputError(input).None? && input.step > 0.0 && StressBuffer(input) > 0.0
    ensures CalculateLeverage(input, slack).Ok? ==>
      var cap := CalculateLeverage(input, slack).value.plan.maxNotional;
      var raw := Min(input.maxLeverage, 1.0 / StressBuffer(input));
      && (exists k :: Fits(k, raw, input.step, slack) && cap == MarginBudget(input) * (k as real * input.step))
      && (forall k :: Fits(k, raw, input.step, slack) ==> MarginBudget(input) * (k as real * input.step) <= cap)
  {
    hide *;
    if CalculateLeverage(input, slack).Ok? {
      Parts(input, slack);
      AcceptedTerms(input);
      SafeIsGreatest(input, slack);
      CapacityAtGreatest(SafeLeverage(input, slack), Min(input.maxLeverage, 1.0 / StressBuffer(input)), input.step, slack,
                         MarginBudget(input));
    }
  }

  lemma CapacityAtGreatest(leverage: real, raw: real, step: real, slack: Slack, budget: real)
    requires step > 0.0 && budget > 0.0 && IsGreatestFit(leverage, raw, step, slack)
    ensures exists k :: Fits(k, raw, step, slack) && budget * leverage == budget * (k as real * step)
    ensures forall k :: Fits(k, raw, step, slack) ==> budget * (k as real * step) <= budget * leverage
  {
    var greatest :| Fits(greatest, raw, step, slack) && leverage == greatest as real * step
      && forall j :: Fits(j, raw, step, slack) ==> j <= greatest;
    forall k | Fits(k, raw, step, slack) ensures budget * (k as real * step) <= budget * leverage {
      Scale(k as real, greatest as real, step);
      Scale(k as real * step, leverage, budget);
    }
  }

  /** The margin of a success is the notional over the selected leverage, and stays in budget up to the slack. */
  lemma MarginWithinBudget(input: Input, slack: Slack)
    ensures CalculateLeverage(input, slack).Ok? ==>
      var f := CalculateLeverage(input, slack).value;
      && f.plan.selectedLeverage > 0.0
      && f.plan.estimatedMargin * f.plan.selectedLeverage == f.notional
      && f.notional <= MarginBudget(input) * (f.plan.selectedLeverage + slack * input.step)
  {
    hide *;
    if CalculateLeverage(input, slack).Ok? {
      Parts(input, slack);
      AcceptedTerms(input);
      var f := CalculateLeverage(input, slack).value;
      CoverKeepsMargin(f.notional, MarginBudget(input), MinimumLeverage(input), input.step, slack);
      QuotientTimesDivisor(f.notional, f.plan.selectedLeverage);
    }
  }

  lemma QuotientTimesDivisor(a: real, b: real)
    requires b > 0.0
    ensures (a / b) * b == a
  {
  }

  /**
   The chosen leverage stays within the safe one and leaves the whole stress buffer, up to the slack
   and, on the finest steps, the comparison tolerance.
   */
  lemma SelectedKeepsStressDistance(input: Input, slack: Slack)
    ensures CalculateLeverage(input, slack).Ok? ==>
      var plan := CalculateLeverage(input, slack).value.plan;
      var buffer := StressBuffer(input);
      var excess := slack * input.step + Overlooked(input.step);
      && 0.0 < plan.selectedLeverage <= plan.safeMaxLeverage + Overlooked(input.step)
      && plan.safeMaxLeverage <= input.maxLeverage + slack * input.step
      && plan.selectedLeverage * buffer <= 1.0 + excess * buffer
      && (excess == 0.0 ==> 1.0 / plan.selectedLeverage >= buffer)
  {
    hide *;
    if CalculateLeverage(input, slack).Ok? {
      Parts(input, slack);
      AcceptedTerms(input);
      SafeWithinRaw(input, slack);
      var f := CalculateLeverage(input, slack).value;
      SelectionWithinSafe(input, Max(MinimumLeverage(input), f.notional / MarginBudget(input)), slack);
      KeepsDistance(f.plan.selectedLeverage, StressBuffer(input), slack * input.step + Overlooked(input.step));
    }
  }

  /** The safe leverage respects the venue cap and the stress distance, up to the slack. */
  lemma SafeWithinRaw(input: Input, slack: Slack)
    requires input.step > 0.0 && StressBuffer(input) > 0.0
    ensures SafeLeverage(input, slack) <= input.maxLeverage + slack * input.step
    ensures SafeLeverage(input, slack) <= 1.0 / StressBuffer(input) + slack * input.step
  {
    var raw := Min(input.maxLeverage, 1.0 / StressBuffer(input));
    assert SafeLeverage(input, slack) <= raw + slack * input.step by {
      hide StressBuffer;
      var k := SafeUnits(input, slack);
      assert Fits(k, raw, input.step, slack);
      StepsAsLeverage(k, raw, input.step, slack);
    }
  }

  lemma KeepsDistance(selected: real, buffer: real, excess: real)
    requires 0.0 < selected && buffer > 0.0
    requires selected <= 1.0 / buffer + excess
    ensures selected * buffer <= 1.0 + excess * buffer
    ensures excess == 0.0 ==> 1.0 / selected >= buffer
  {
    Scale(selected, 1.0 / buffer + excess, buffer);
    assert (1.0 / buffer) * buffer == 1.0;
    if excess == 0.0 {
      var inverse := 1.0 / selected;
      assert inverse * selected == 1.0;
      Ordered(buffer, inverse, selected);
    }
  }

  /**
   Main result.  Inputs that pass the argument checks fail for one reason only: the minimum leverage,
   as it is or rounded up to a step, does not fit under the safe leverage. Unless the steps are finer
   than the comparison tolerance that is a comparison of whole steps.
   */
  lemma FailsExactlyWhenMinimumDoesNotFit(input: Input, slack: Slack)
    requires InputError(input).None?
    ensures input.step > 0.0 && StressBuffer(input) > 0.0
    ensures CalculateLeverage(input, slack).Err? <==>
      Max(MinimumLeverage(input), CeilStep(MinimumLeverage(input), input.step, slack)) > SafeLeverage(input, slack) + COMPARE_TOLERANCE
    ensures input.step > COMPARE_TOLERANCE ==>
      (CalculateLeverage(input, slack).Err? <==>
       CeilUnits(MinimumLeverage(input), input.step, slack) > SafeUnits(input, slack))
  {
    AcceptedTerms(input);
    hide CeilUnits, CeilStep, SafeUnits, StressBuffer, MarginBudget, MinimumLeverage, InputError, Finance;
    FinanceFailsExactly(input.proposedNotional, MinimumLeverage(input), MarginBudget(input),
                        SafeLeverage(input, slack), SafeUnits(input, slack), input.step, slack);
  }

  /** Which inputs pass the argument checks. */
  lemma AcceptedExactly(input: Input, stress: real)
    requires IsMaximum(stress, [input.minLiquidationBuffer, input.stopFraction * input.stopMultiple,
                                input.volatilityFraction * input.volatilityMultiple])
    ensures InputError(input).None? <==>
      && input.equity > 0.0 && input.proposedNotional > 0.0
      && input.stopFraction >= 0.0 && input.volatilityFraction >= 0.0
      && input.maxLeverage >= 1.0 && (input.minLeverage <= 0.0 || 1.0 <= input.minLeverage <= input.maxLeverage)
      && 0.0 < input.maxMarginPct <= 1.0 && 0.0 < input.step <= 1.0
      && input.minLiquidationBuffer > 0.0 && input.stopMultiple > 0.0 && input.volatilityMultiple > 0.0
      && input.reservePct >= 0.0 && stress + input.reservePct < 1.0
  {
    StressBufferIsMaximum(input, stress);
  }
}
