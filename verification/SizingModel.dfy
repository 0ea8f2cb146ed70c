/**
 The leverage model applied to a proposal (applyLeverageModel of internal/orchestrator/leverage.go): as the
 program does it, and in the fields of the proposal and the limits.
 */
module SizingModel {
  import opened Wrappers
  import opened RiskEngine
  import LM = LeverageModel

  datatype ModelError =
    | MissingPrices
    | NoStopDistance
    | Leverage(error: LM.LeverageError)
    | CapacityExhausted
    | InvalidProposal

  /** Positive entry price, or the middle of a positive range. */
  function EntryPrice(plan: PricePlan): Option<real> {
    if plan.price.Some? && plan.price.value > 0.0 then plan.price
    else if plan.low.None? || plan.high.None? || plan.low.value <= 0.0 || plan.high.value <= 0.0 then None
    else Some((plan.low.value + plan.high.value) / 2.0)
  }

  predicate ValidPlan(plan: LM.Plan, leverage: real) {
    && plan.requiredLeverage >= 1.0 && plan.safeMaxLeverage >= 1.0 && plan.selectedLeverage >= 1.0
    && plan.selectedLeverage <= plan.safeMaxLeverage
    && Abs(plan.selectedLeverage - leverage) <= LM.COMPARE_TOLERANCE
    && plan.stopFraction >= 0.0 && plan.volatilityFraction >= 0.0
    && plan.requiredBuffer > 0.0 && plan.marginBudget > 0.0
    && plan.estimatedMargin >= 0.0 && plan.maxNotional > 0.0
  }

  /** The validation of the fields that the sizing code changes or reads. */
  predicate ValidProposal(p: Proposal) {
    && p.size >= 0.0 && p.leverage >= 1.0
    && (p.leveragePlan.Some? ==> ValidPlan(p.leveragePlan.value, p.leverage))
    && (p.addOn.Some? ==> p.addOn.value.existingNotional > 0.0 && p.addOn.value.existingLeverage >= 1.0)
  }

  function StopFraction(p: Proposal): real
    requires p.stopLoss.Some? && EntryPrice(p.entry).Some? && EntryPrice(p.entry).value > 0.0
  {
    Abs(EntryPrice(p.entry).value - p.stopLoss.value) / EntryPrice(p.entry).value
  }

  function LeverageInput(p: Proposal, equity: real, l: Limits): LM.Input
    requires p.stopLoss.Some? && EntryPrice(p.entry).Some? && EntryPrice(p.entry).value > 0.0
  {
    LM.Input(
      equity, p.size + ExistingNotional(p), StopFraction(p),
      if p.leveragePlan.Some? then p.leveragePlan.value.volatilityFraction else 0.0,
      l.maxLeverage, if p.addOn.Some? then p.addOn.value.existingLeverage else 1.0,
      l.maxMarginPct, l.leverageStep, l.minLiquidationBuffer, l.stopMultiple, l.volatilityMultiple, l.reservePct)
  }

  /** applyLeverageModel: the proposal it leaves behind, and its error. */
  function ApplyModel(p: Proposal, equity: real, l: Limits, slack: LM.Slack): (Proposal, Option<ModelError>) {
    if !IsOpen(p) || !p.instrument.Perp? then
      var p' := p.(leverage := 1.0, leveragePlan := None);
      (p', if ValidProposal(p') then None else Some(InvalidProposal))
    else if EntryPrice(p.entry).None? || EntryPrice(p.entry).value <= 0.0 || p.stopLoss.None? then
      (p, Some(MissingPrices))
    else if StopFraction(p) <= 0.0 then
      (p, Some(NoStopDistance))
    else
      match LM.CalculateLeverage(LeverageInput(p, equity, l), slack)
      case Err(error) => (p, Some(Leverage(error)))
      case Ok(f) =>
        var size := f.notional - ExistingNotional(p);
        if size <= 0.0 then (p, Some(CapacityExhausted))
        else
          var p' := p.(size := size, leverage := f.plan.selectedLeverage, leveragePlan := Some(f.plan));
          (p', if ValidProposal(p') then None else Some(InvalidProposal))
  }

  // ---- what the model does to a proposal, in the fields of the proposal and the limits ----

  /** The entry price is the given one if it is positive, or else the middle of a positive range. */
  ghost predicate EntersAt(plan: PricePlan, price: real) {
    if plan.price.Some? && plan.price.value > 0.0 then price == plan.price.value
    else
      && plan.low.Some? && plan.low.value > 0.0 && plan.high.Some? && plan.high.value > 0.0
      && price + price == plan.low.value + plan.high.value
  }

  ghost predicate FailsWith(p: Proposal, q: Proposal, error: Option<ModelError>, reason: ModelError) {
    q == p && error == Some(reason)
  }

  /**
   What the model leaves of a proposal, and when it errs. Every order but an opening perpetual one gets
   leverage one and no plan; a perpetual one needs an entry price and a stop away from it.
   */
  ghost predicate Modelled(p: Proposal, equity: real, l: Limits, slack: LM.Slack, q: Proposal, error: Option<ModelError>) {
    var addOnHolds := p.addOn.Some? ==> p.addOn.value.existingNotional > 0.0 && p.addOn.value.existingLeverage >= 1.0;
    if !((p.side.Long? || p.side.Short?) && p.instrument.Perp?) then
      && q == p.(leverage := 1.0, leveragePlan := None)
      && error == (if p.size >= 0.0 && addOnHolds then None else Some(InvalidProposal))
    else if p.stopLoss.None? || (forall price :: !EntersAt(p.entry, price)) then FailsWith(p, q, error, MissingPrices)
    else
      exists price :: EntersAt(p.entry, price) &&
        if p.stopLoss.value == price then FailsWith(p, q, error, NoStopDistance)
        else Sized(p, price, equity, l, slack, q, error)
  }

  /** The volatility of an earlier plan, and the position that is added to; its leverage counts as one if there is none. */
  ghost function PlannedVolatility(p: Proposal): real {
    if p.leveragePlan.Some? then p.leveragePlan.value.volatilityFraction else 0.0
  }

  ghost function OpenNotional(p: Proposal): real { if p.addOn.Some? then p.addOn.value.existingNotional else 0.0 }

  ghost function OpenLeverage(p: Proposal): real {
    if p.addOn.Some? && p.addOn.value.existingLeverage > 0.0 then p.addOn.value.existingLeverage else 1.0
  }

  /** The argument checks, in their order, and then the financing. */
  ghost predicate Sized(
    p: Proposal, price: real, equity: real, l: Limits, slack: LM.Slack, q: Proposal, error: Option<ModelError>)
    requires p.stopLoss.Some?
  {
    var volatility, existing, minimum := PlannedVolatility(p), OpenNotional(p), OpenLeverage(p);
    if equity <= 0.0 || p.size + existing <= 0.0 then FailsWith(p, q, error, Leverage(LM.NonPositiveNotional))
    else if volatility < 0.0 then FailsWith(p, q, error, Leverage(LM.NegativeFraction))
    else if l.maxLeverage < 1.0 || minimum < 1.0 || minimum > l.maxLeverage || l.maxMarginPct <= 0.0 || l.maxMarginPct > 1.0
            || l.leverageStep <= 0.0 || l.leverageStep > 1.0 then FailsWith(p, q, error, Leverage(LM.InvalidLimits))
    else if l.minLiquidationBuffer <= 0.0 || l.stopMultiple <= 0.0 || l.volatilityMultiple <= 0.0 || l.reservePct < 0.0 then
      FailsWith(p, q, error, Leverage(LM.InvalidStress))
    else
      exists stop, stress :: Stressed(p, price, equity, l, slack, volatility, minimum, existing, q, error, stop, stress)
  }

  ghost predicate Stressed(
    p: Proposal, price: real, equity: real, l: Limits, slack: LM.Slack, volatility: real, minimum: real, existing: real,
    q: Proposal, error: Option<ModelError>, stop: real, stress: real)
    requires p.stopLoss.Some? && l.leverageStep > 0.0
  {
    && IsStress(p.stopLoss.value, price, l, volatility, stop, stress) && stress + l.reservePct > 0.0
    && if stress + l.reservePct >= 1.0 then FailsWith(p, q, error, Leverage(LM.NoFeasibleLeverage))
       else Carried(p, equity, l, slack, stop, volatility, stress + l.reservePct, minimum, existing, q, error)
  }

  /** The stop's distance as a fraction of the price, and the largest of the three stress distances. */
  ghost predicate IsStress(stopLoss: real, price: real, l: Limits, volatility: real, stop: real, stress: real) {
    && price > 0.0 && stop * price == (if price > stopLoss then price - stopLoss else stopLoss - price)
    && LM.IsMaximum(stress, [l.minLiquidationBuffer, stop * l.stopMultiple, volatility * l.volatilityMultiple])
  }

  /**
   With the stress buffer known: the safe leverage is the greatest step within the cap and the distance, the
   notional the asked one or what the margin budget carries there, and the leverage the least step that covers
   the existing leverage and the notional over the budget.
   */
  ghost predicate Carried(
    p: Proposal, equity: real, l: Limits, slack: LM.Slack, stop: real, volatility: real, buffer: real, minimum: real,
    existing: real, q: Proposal, error: Option<ModelError>)
    requires buffer > 0.0 && l.leverageStep > 0.0
  {
    exists budget, safe, leverage, required ::
      budget == equity * l.maxMarginPct && budget > 0.0
      && CarriedAt(p, budget, l, slack, stop, volatility, buffer, minimum, existing, q, error, safe, leverage, required)
  }

  ghost predicate CarriedAt(
    p: Proposal, budget: real, l: Limits, slack: LM.Slack, stop: real, volatility: real, buffer: real, minimum: real,
    existing: real, q: Proposal, error: Option<ModelError>, safe: real, leverage: real, required: real)
    requires buffer > 0.0 && l.leverageStep > 0.0 && budget > 0.0
  {
    var asked := p.size + existing;
    var notional := if asked > budget * safe then budget * safe else asked;
    && LM.IsGreatestFit(safe, if l.maxLeverage < 1.0 / buffer then l.maxLeverage else 1.0 / buffer, l.leverageStep, slack)
    && LM.IsLeastCover(leverage, if minimum > notional / budget then minimum else notional / budget, l.leverageStep, slack)
    && LM.IsLeastCover(required, if asked / budget > 1.0 then asked / budget else 1.0, l.leverageStep, slack)
    && leverage > 0.0
    && if safe + 0.000000001 < minimum then FailsWith(p, q, error, Leverage(LM.MinimumAboveSafe))
       else if leverage > safe + 0.000000001 then FailsWith(p, q, error, Leverage(LM.SelectedAboveSafe))
       else if notional <= existing then FailsWith(p, q, error, CapacityExhausted)
       else
         && q == p.(size := notional - existing, leverage := leverage,
                    leveragePlan := Some(LM.Plan(required, safe, leverage, stop, volatility, buffer, budget,
                                                 notional / leverage, budget * safe, asked > budget * safe)))
         && error == (if Holds(p, required, safe, leverage) then None else Some(InvalidProposal))
  }

  /** What can still be wrong with a financed proposal: its roundings, and the position it adds to. */
  ghost predicate Holds(p: Proposal, required: real, safe: real, leverage: real) {
    && required >= 1.0 && 1.0 <= leverage <= safe
    && (p.addOn.Some? ==> p.addOn.value.existingNotional > 0.0 && p.addOn.value.existingLeverage >= 1.0)
  }

  /** Main result.  The model does to every proposal what its fields and those of the limits determine. */
  lemma ModelByFields(p: Proposal, equity: real, l: Limits, slack: LM.Slack)
    ensures Modelled(p, equity, l, slack, ApplyModel(p, equity, l, slack).0, ApplyModel(p, equity, l, slack).1)
  {
    EntryByFields(p.entry);
    if IsOpen(p) && p.instrument.Perp? && p.stopLoss.Some? && EntryPrice(p.entry).Some? {
      hide LM.CalculateLeverage, ValidProposal, Sized, EntersAt, EntryPrice;
      var price := EntryPrice(p.entry).value;
      StopByFields(p, price);
      if p.stopLoss.value != price {
        SizedByFields(p, price, equity, l, slack);
      }
    }
  }

  lemma EntryByFields(plan: PricePlan)
    ensures EntryPrice(plan).Some? ==> EntryPrice(plan).value > 0.0 && EntersAt(plan, EntryPrice(plan).value)
    ensures EntryPrice(plan).None? ==> forall price :: !EntersAt(plan, price)
  {
  }

  lemma StopByFields(p: Proposal, price: real)
    requires p.stopLoss.Some? && EntryPrice(p.entry) == Some(price) && price > 0.0
    ensures StopFraction(p) >= 0.0
    ensures StopFraction(p) > 0.0 <==> p.stopLoss.value != price
    ensures StopFraction(p) * price == if price > p.stopLoss.value then price - p.stopLoss.value else p.stopLoss.value - price
  {
    QuotientExceeds(Abs(price - p.stopLoss.value), price, 0.0);
    QuotientFalls(Abs(price - p.stopLoss.value), price, 0.0);
  }

  lemma SizedByFields(p: Proposal, price: real, equity: real, l: Limits, slack: LM.Slack)
    requires IsOpen(p) && p.instrument.Perp? && p.stopLoss.Some? && EntryPrice(p.entry) == Some(price) && price > 0.0
    requires p.stopLoss.value != price
    ensures Sized(p, price, equity, l, slack, ApplyModel(p, equity, l, slack).0, ApplyModel(p, equity, l, slack).1)
  {
    hide EntryPrice, StopFraction, LM.StressBuffer, LM.CalculateLeverage, ValidProposal, Carried, IsStress, FailsWith,
      LM.InputError, LM.MinimumLeverage, ApplyModel, Sized;
    StopByFields(p, price);
    var input := LeverageInput(p, equity, l);
    var stress := StressByFields(p.stopLoss.value, price, l, input);
    FailedArguments(p, price, equity, l, slack);
    if LM.InputError(input).None? {
      LM.AcceptedTerms(input);
      CarriedByFields(p, price, equity, l, slack, stress + l.reservePct);
    }
    var (q, error) := ApplyModel(p, equity, l, slack);
    ChecksByFields(p, price, equity, l, slack, q, error, stress);
  }

  /** The argument checks are the conditions on the fields. */
  lemma ChecksByFields(
    p: Proposal, price: real, equity: real, l: Limits, slack: LM.Slack, q: Proposal, error: Option<ModelError>, stress: real)
    requires p.stopLoss.Some? && EntryPrice(p.entry) == Some(price) && price > 0.0 && StopFraction(p) > 0.0
    requires IsStress(p.stopLoss.value, price, l, LeverageInput(p, equity, l).volatilityFraction, StopFraction(p), stress)
    requires stress + l.reservePct == LM.StressBuffer(LeverageInput(p, equity, l)) && stress >= l.minLiquidationBuffer
    requires var input := LeverageInput(p, equity, l);
      match LM.InputError(input)
      case Some(failed) => FailsWith(p, q, error, Leverage(failed))
      case None =>
        stress + l.reservePct > 0.0 && l.leverageStep > 0.0
        && Carried(p, equity, l, slack, StopFraction(p), input.volatilityFraction, stress + l.reservePct,
                   LM.MinimumLeverage(input), ExistingNotional(p), q, error)
    ensures Sized(p, price, equity, l, slack, q, error)
  {
    hide EntryPrice, StopFraction, LM.StressBuffer, IsStress, FailsWith, Carried, PlannedVolatility, OpenNotional, OpenLeverage;
    var input := LeverageInput(p, equity, l);
    InputByFields(p, price, equity, l);
    if LM.InputError(input) in {None, Some(LM.NoFeasibleLeverage)} {
      assert Stressed(p, price, equity, l, slack, PlannedVolatility(p), OpenLeverage(p), OpenNotional(p),
                      q, error, StopFraction(p), stress);
    }
  }

  lemma InputByFields(p: Proposal, price: real, equity: real, l: Limits)
    requires p.stopLoss.Some? && EntryPrice(p.entry) == Some(price) && price > 0.0
    ensures var input := LeverageInput(p, equity, l);
      && input.volatilityFraction == PlannedVolatility(p) && LM.MinimumLeverage(input) == OpenLeverage(p)
      && ExistingNotional(p) == OpenNotional(p) && input.proposedNotional == p.size + OpenNotional(p)
      && input.stopFraction == StopFraction(p)
  {
    hide EntryPrice, StopFraction;
  }

  /** An argument check that fails is the model's error. */
  lemma FailedArguments(p: Proposal, price: real, equity: real, l: Limits, slack: LM.Slack)
    requires IsOpen(p) && p.instrument.Perp? && p.stopLoss.Some? && EntryPrice(p.entry) == Some(price) && price > 0.0
    requires StopFraction(p) > 0.0
    ensures var failed := LM.InputError(LeverageInput(p, equity, l));
      var (q, error) := ApplyModel(p, equity, l, slack);
      failed.Some? ==> FailsWith(p, q, error, Leverage(failed.value))
  {
    hide EntryPrice, StopFraction, LM.InputError;
  }

  lemma StressByFields(stopLoss: real, price: real, l: Limits, input: LM.Input) returns (stress: real)
    requires price > 0.0 && input.minLiquidationBuffer == l.minLiquidationBuffer && input.stopMultiple == l.stopMultiple
    requires input.volatilityMultiple == l.volatilityMultiple && input.reservePct == l.reservePct
    requires input.stopFraction * price == if price > stopLoss then price - stopLoss else stopLoss - price
    ensures IsStress(stopLoss, price, l, input.volatilityFraction, input.stopFraction, stress)
    ensures stress + l.reservePct == LM.StressBuffer(input)
    ensures stress >= l.minLiquidationBuffer
  {
    var byStop, byVolatility := input.stopFraction * l.stopMultiple, input.volatilityFraction * l.volatilityMultiple;
    stress := LM.Max(LM.Max(l.minLiquidationBuffer, byStop), byVolatility);
    MaximumOfThree(l.minLiquidationBuffer, byStop, byVolatility);
    assert input.stopFraction * input.stopMultiple == byStop;
    assert input.volatilityFraction * input.volatilityMultiple == byVolatility;
  }

  lemma MaximumOfThree(a: real, b: real, c: real)
    ensures LM.IsMaximum(LM.Max(LM.Max(a, b), c), [a, b, c])
  {
    assert [a, b, c][0] == a && [a, b, c][1] == b && [a, b, c][2] == c;
  }

  /** The model after the argument checks, for a stop that is away from the price. */
  lemma CarriedByFields(p: Proposal, price: real, equity: real, l: Limits, slack: LM.Slack, buffer: real)
    requires IsOpen(p) && p.instrument.Perp? && p.stopLoss.Some? && EntryPrice(p.entry) == Some(price) && price > 0.0
    requires StopFraction(p) > 0.0 && LM.InputError(LeverageInput(p, equity, l)).None?
    requires buffer == LM.StressBuffer(LeverageInput(p, equity, l))
    ensures buffer > 0.0 && l.leverageStep > 0.0 && equity * l.maxMarginPct > 0.0
    ensures var input := LeverageInput(p, equity, l);
      Carried(p, equity, l, slack, input.stopFraction, input.volatilityFraction, buffer,
              LM.MinimumLeverage(input), ExistingNotional(p), ApplyModel(p, equity, l, slack).0, ApplyModel(p, equity, l, slack).1)
  {
    hide ApplyModel, EntryPrice, StopFraction, LM.StressBuffer, LM.SafeLeverage, LM.CeilStep, LM.IsGreatestFit, LM.IsLeastCover,
      Holds, LM.InputError, LM.MinimumLeverage, LM.MarginBudget, FailsWith;
    var input := LeverageInput(p, equity, l);
    LM.AcceptedTerms(input);
    var minimum, budget, safe := LM.MinimumLeverage(input), LM.MarginBudget(input), LM.SafeLeverage(input, slack);
    BudgetOf(input);
    var asked := input.proposedNotional;
    var notional := if asked > budget * safe then budget * safe else asked;
    var leverage := LM.CeilStep(LM.Max(minimum, notional / budget), l.leverageStep, slack);
    var required := LM.CeilStep(LM.Max(1.0, asked / budget), l.leverageStep, slack);
    LM.SafeIsGreatest(input, slack);
    LM.CeilIsLeast(LM.Max(minimum, notional / budget), l.leverageStep, slack);
    LM.CeilIsLeast(LM.Max(1.0, asked / budget), l.leverageStep, slack);
    ModelByCases(p, price, equity, l, slack, minimum, budget, safe, notional, leverage, required);
    CarriedWith(p, equity, l, slack, input.stopFraction, input.volatilityFraction, buffer, minimum, ExistingNotional(p),
                ApplyModel(p, equity, l, slack).0, ApplyModel(p, equity, l, slack).1, budget, safe, notional, leverage, required);
  }

  /** The witnesses of Carried. */
  lemma CarriedWith(
    p: Proposal, equity: real, l: Limits, slack: LM.Slack, stop: real, volatility: real, buffer: real, minimum: real,
    existing: real, q: Proposal, error: Option<ModelError>, budget: real, safe: real, notional: real, leverage: real, required: real)
    requires buffer > 0.0 && l.leverageStep > 0.0 && budget == equity * l.maxMarginPct && budget > 0.0 && leverage > 0.0
    requires notional == if p.size + existing > budget * safe then budget * safe else p.size + existing
    requires LM.IsGreatestFit(safe, LM.Min(l.maxLeverage, 1.0 / buffer), l.leverageStep, slack)
    requires LM.IsLeastCover(leverage, LM.Max(minimum, notional / budget), l.leverageStep, slack)
    requires LM.IsLeastCover(required, LM.Max(1.0, (p.size + existing) / budget), l.leverageStep, slack)
    requires if safe + 0.000000001 < minimum then FailsWith(p, q, error, Leverage(LM.MinimumAboveSafe))
      else if leverage > safe + 0.000000001 then FailsWith(p, q, error, Leverage(LM.SelectedAboveSafe))
      else if notional <= existing then FailsWith(p, q, error, CapacityExhausted)
      else
        && q == p.(size := notional - existing, leverage := leverage,
                   leveragePlan := Some(LM.Plan(required, safe, leverage, stop, volatility, buffer, budget,
                                                notional / leverage, budget * safe, p.size + existing > budget * safe)))
        && error == (if Holds(p, required, safe, leverage) then None else Some(InvalidProposal))
    ensures Carried(p, equity, l, slack, stop, volatility, buffer, minimum, existing, q, error)
  {
    hide LM.IsGreatestFit, LM.IsLeastCover, Holds, FailsWith;
    SameSteps(safe, LM.Min(l.maxLeverage, 1.0 / buffer), if l.maxLeverage < 1.0 / buffer then l.maxLeverage else 1.0 / buffer,
              l.leverageStep, slack);
    SameSteps(leverage, LM.Max(minimum, notional / budget), if minimum > notional / budget then minimum else notional / budget,
              l.leverageStep, slack);
    var asked := p.size + existing;
    SameSteps(required, LM.Max(1.0, asked / budget), if asked / budget > 1.0 then asked / budget else 1.0, l.leverageStep, slack);
    assert CarriedAt(p, budget, l, slack, stop, volatility, buffer, minimum, existing, q, error, safe, leverage, required);
  }

  lemma SameSteps(leverage: real, value: real, same: real, step: real, slack: LM.Slack)
    requires step > 0.0 && value == same
    ensures LM.IsGreatestFit(leverage, value, step, slack) == LM.IsGreatestFit(leverage, same, step, slack)
    ensures LM.IsLeastCover(leverage, value, step, slack) == LM.IsLeastCover(leverage, same, step, slack)
  {
  }

  lemma BudgetOf(input: LM.Input)
    ensures LM.MarginBudget(input) == input.equity * input.maxMarginPct
  {
  }

  /** The model's result with its intermediate values named. */
  lemma ModelByCases(
    p: Proposal, price: real, equity: real, l: Limits, slack: LM.Slack, minimum: real, budget: real, safe: real,
    notional: real, leverage: real, required: real)
    requires IsOpen(p) && p.instrument.Perp? && p.stopLoss.Some? && EntryPrice(p.entry) == Some(price) && price > 0.0
    requires StopFraction(p) > 0.0 && LM.InputError(LeverageInput(p, equity, l)).None?
    requires LM.StressBuffer(LeverageInput(p, equity, l)) > 0.0 && 0.0 < l.leverageStep <= 1.0 <= minimum && budget > 0.0
    requires minimum == LM.MinimumLeverage(LeverageInput(p, equity, l)) && budget == LM.MarginBudget(LeverageInput(p, equity, l))
    requires safe == LM.SafeLeverage(LeverageInput(p, equity, l), slack)
    requires notional == if p.size + ExistingNotional(p) > budget * safe then budget * safe else p.size + ExistingNotional(p)
    requires leverage == LM.CeilStep(LM.Max(minimum, notional / budget), l.leverageStep, slack)
    requires required == LM.CeilStep(LM.Max(1.0, (p.size + ExistingNotional(p)) / budget), l.leverageStep, slack)
    ensures leverage > 0.0
    ensures var (q, error) := ApplyModel(p, equity, l, slack);
      var input := LeverageInput(p, equity, l);
      if safe + 0.000000001 < minimum then FailsWith(p, q, error, Leverage(LM.MinimumAboveSafe))
      else if leverage > safe + 0.000000001 then FailsWith(p, q, error, Leverage(LM.SelectedAboveSafe))
      else if notional <= ExistingNotional(p) then FailsWith(p, q, error, CapacityExhausted)
      else
        && q == p.(size := notional - ExistingNotional(p), leverage := leverage,
                   leveragePlan := Some(LM.Plan(required, safe, leverage, input.stopFraction, input.volatilityFraction,
                                                LM.StressBuffer(input), budget, notional / leverage, budget * safe,
                                                input.proposedNotional > budget * safe)))
        && error == (if Holds(p, required, safe, leverage) then None else Some(InvalidProposal))
  {
    hide EntryPrice, StopFraction, LM.StressBuffer, LM.Finance, LM.SafeLeverage, LM.CeilStep, LM.InputError, LM.MinimumLeverage,
      LM.MarginBudget, ValidProposal, Holds;
    var input := LeverageInput(p, equity, l);
    LM.FinanceByCases(input.proposedNotional, minimum, budget, safe, l.leverageStep, slack);
    var (q, error) := ApplyModel(p, equity, l, slack);
    if safe + 0.000000001 >= minimum && leverage <= safe + 0.000000001 && notional > ExistingNotional(p) {
      FinancedHolds(q, p, notional, budget, safe, required, leverage, input, slack);
    }
  }

  /** A financed proposal is valid but for its roundings and the position it adds to. */
  lemma FinancedHolds(
    q: Proposal, p: Proposal, notional: real, budget: real, safe: real, required: real, leverage: real, input: LM.Input,
    slack: LM.Slack)
    requires budget > 0.0 && leverage > 0.0 && notional > ExistingNotional(p) && LM.StressBuffer(input) > 0.0
    requires input.stopFraction > 0.0 && LM.InputError(input).None?
    requires notional == if input.proposedNotional > budget * safe then budget * safe else input.proposedNotional
    requires q == p.(size := notional - ExistingNotional(p), leverage := leverage,
                     leveragePlan := Some(LM.Plan(required, safe, leverage, input.stopFraction, input.volatilityFraction,
                                                  LM.StressBuffer(input), budget, notional / leverage, budget * safe,
                                                  input.proposedNotional > budget * safe)))
    ensures ValidProposal(q) <==> Holds(p, required, safe, leverage)
  {
    hide LM.StressBuffer;
    if safe >= 1.0 {
      LM.StrictScale(0.0, safe, budget);
      assert safe * budget == budget * safe;
      QuotientFalls(notional, leverage, 0.0);
    }
  }
}
