/**
 The deterministic risk rules of internal/risk/engine.go for venues without an on-chain leg.
 Quantities are exact reals and a quotient is exact division.
 */
module RiskEngine {
  import opened Contracts
  import opened Wrappers
  import LeverageModel

  /** The part of a pyramid plan that the sizing rules read. */
  datatype AddOn = AddOn(existingNotional: real, existingLeverage: real)

  datatype PricePlan = PricePlan(price: Option<real>, low: Option<real>, high: Option<real>)

  datatype Proposal = Proposal(
    side: Side,
    instrument: Instrument,
    size: real,
    leverage: real,
    marginMode: MarginMode,
    entry: PricePlan,
    stopLoss: Option<real>,
    leveragePlan: Option<LeverageModel.Plan>,
    addOn: Option<AddOn>)

  datatype Context = Context(
    equity: real,
    refPrice: real,
    grossExposure: real,
    symbolExposure: real,
    correlatedExposure: Option<real>,
    portfolioCvar: Option<real>,
    ordersLastHour: int,
    consecutiveLosses: int,
    dailyDrawdown: real,
    weeklyDrawdown: real,
    totalDrawdown: real,
    reconciling: bool,
    kill: bool,
    marginRatio: Option<real>,
    slippageBps: Option<real>,
    liquidationPrice: Option<real>,
    priceImpact: Option<real>)

  datatype Limits = Limits(
    maxRiskPerTrade: real,
    maxPositionPct: real,
    maxGrossExposure: real,
    maxSymbolConcentration: real,
    maxCorrelatedExposure: real,
    maxCvarPct: real,
    maxOrdersPerHour: int,
    maxSlippageBps: real,
    maxLeverage: real,
    maxMarginPct: real,
    leverageStep: real,
    minLiquidationBuffer: real,
    stopMultiple: real,
    volatilityMultiple: real,
    reservePct: real,
    forceIsolated: bool,
    minMarginRatio: real,
    maxPriceImpact: real,
    dailyDrawdownLimit: real,
    weeklyDrawdownLimit: real,
    maxDrawdownLimit: real,
    maxConsecutiveLosses: int)

  datatype Rule =
    | KillSwitch | Reconciling | DrawdownCircuit | ConsecutiveLosses | OrderRate | StopLossRequired
    | LeverageCap | MarginBudget | LiquidationBuffer | MarginModeRule | MaintenanceMargin | Slippage | PriceImpact
    | PerTradeRisk | PositionCap | GrossExposure | SymbolConcentration | CorrelatedExposure | CvarLimit
    | LeverageModelCut | Preflight

  datatype Outcome = Pass | Reject | Downsize(maxSize: real)

  datatype Finding = Finding(rule: Rule, outcome: Outcome)

  datatype Verdict = Approved | Downsized | Rejected

  datatype Assessment = Assessment(verdict: Verdict, violations: seq<Rule>, adjustedSize: Option<real>)

  function Abs(x: real): real { if x < 0.0 then -x else x }

  predicate IsOpen(p: Proposal) { p.side.Long? || p.side.Short? }

  function ExistingNotional(p: Proposal): real {
    if p.addOn.Some? then p.addOn.value.existingNotional else 0.0
  }

  function RejectIf(condition: bool): Outcome { if condition then Reject else Pass }

  // Rules that never look at the size.

  function RuleDrawdown(p: Proposal, c: Context, l: Limits): Outcome {
    RejectIf(IsOpen(p) && (c.totalDrawdown >= l.maxDrawdownLimit
                           || c.weeklyDrawdown >= l.weeklyDrawdownLimit
                           || c.dailyDrawdown >= l.dailyDrawdownLimit))
  }

  function RuleStopLoss(p: Proposal, c: Context): Outcome {
    if !IsOpen(p) then Pass
    else if p.stopLoss.None? then Reject
    else RejectIf((p.side.Long? && p.stopLoss.value >= c.refPrice) || (p.side.Short? && p.stopLoss.value <= c.refPrice))
  }

  function RuleLiquidationBuffer(p: Proposal, c: Context, l: Limits): Outcome {
    if !IsOpen(p) || !p.instrument.Perp? || c.liquidationPrice.None? || c.refPrice <= 0.0 then Pass
    else
      var buffer := Abs(c.refPrice - c.liquidationPrice.value) / c.refPrice;
      var configured := l.minLiquidationBuffer + l.reservePct;
      var required := if p.leveragePlan.Some? && p.leveragePlan.value.requiredBuffer > configured
                      then p.leveragePlan.value.requiredBuffer else configured;
      RejectIf(buffer < required)
  }

  function RuleMaintenanceMargin(p: Proposal, c: Context, l: Limits): Outcome {
    RejectIf(IsOpen(p) && p.instrument.Perp? && c.marginRatio.Some? && c.marginRatio.value < l.minMarginRatio)
  }

  function RuleCvar(p: Proposal, c: Context, l: Limits): Outcome {
    RejectIf(IsOpen(p) && c.portfolioCvar.Some? && c.portfolioCvar.value > c.equity * l.maxCvarPct)
  }

  // Rules that bound the size.

  function RuleMarginBudget(p: Proposal, c: Context, l: Limits): Outcome {
    if !IsOpen(p) || !p.instrument.Perp? || c.equity <= 0.0 || l.maxMarginPct <= 0.0 then Pass
    else if p.leverage <= 0.0 then Reject
    else
      var budget := c.equity * l.maxMarginPct;
      if (p.size + ExistingNotional(p)) / p.leverage > budget then
        var maxSize := budget * p.leverage - ExistingNotional(p);
        if maxSize <= 0.0 then Reject else Downsize(maxSize)
      else Pass
  }

  function RulePerTradeRisk(p: Proposal, c: Context, l: Limits): Outcome {
    if !IsOpen(p) || p.stopLoss.None? || c.refPrice <= 0.0 then Pass
    else
      var stopFraction := Abs(c.refPrice - p.stopLoss.value) / c.refPrice;
      if stopFraction <= 0.0 then Reject
      else
        var budget := c.equity * l.maxRiskPerTrade;
        if p.size * stopFraction > budget then Downsize(budget / stopFraction) else Pass
  }

  function RulePositionCap(p: Proposal, c: Context, l: Limits): Outcome {
    if !IsOpen(p) then Pass
    else
      var cap := c.equity * l.maxPositionPct;
      if p.size + ExistingNotional(p) > cap then
        if cap - ExistingNotional(p) <= 0.0 then Reject else Downsize(cap - ExistingNotional(p))
      else Pass
  }

  /** The shape shared by the three exposure rules: what is left of a cap bounds the order. */
  function RuleRoom(open: bool, size: real, cap: real, used: real): Outcome {
    if !open then Pass
    else if cap - used <= 0.0 then Reject
    else if size > cap - used then Downsize(cap - used)
    else Pass
  }

  function RuleGrossExposure(p: Proposal, c: Context, l: Limits): Outcome {
    RuleRoom(IsOpen(p), p.size, c.equity * l.maxGrossExposure, c.grossExposure)
  }

  function RuleSymbolConcentration(p: Proposal, c: Context, l: Limits): Outcome {
    RuleRoom(IsOpen(p), p.size, c.equity * l.maxSymbolConcentration, c.symbolExposure)
  }

  function RuleCorrelatedExposure(p: Proposal, c: Context, l: Limits): Outcome {
    if c.correlatedExposure.None? then Pass
    else RuleRoom(IsOpen(p), p.size, c.equity * l.maxCorrelatedExposure, c.correlatedExposure.value)
  }

  /** The rules in the stable order of the engine. */
  const RULES: seq<Rule> := [
    KillSwitch, Reconciling, DrawdownCircuit, ConsecutiveLosses, OrderRate, StopLossRequired,
    LeverageCap, MarginBudget, LiquidationBuffer, MarginModeRule, MaintenanceMargin, Slippage, PriceImpact,
    PerTradeRisk, PositionCap, GrossExposure, SymbolConcentration, CorrelatedExposure, CvarLimit]

  function Evaluate(rule: Rule, p: Proposal, c: Context, l: Limits): Outcome {
    match rule
    case KillSwitch => RejectIf(c.kill && IsOpen(p))
    case Reconciling => RejectIf(c.reconciling && IsOpen(p))
    case DrawdownCircuit => RuleDrawdown(p, c, l)
    case ConsecutiveLosses => RejectIf(IsOpen(p) && c.consecutiveLosses >= l.maxConsecutiveLosses)
    case OrderRate => RejectIf(IsOpen(p) && c.ordersLastHour >= l.maxOrdersPerHour)
    case StopLossRequired => RuleStopLoss(p, c)
    case LeverageCap => RejectIf(IsOpen(p) && p.leverage > l.maxLeverage)
    case MarginBudget => RuleMarginBudget(p, c, l)
    case LiquidationBuffer => RuleLiquidationBuffer(p, c, l)
    case MarginModeRule => RejectIf(IsOpen(p) && p.instrument.Perp? && l.forceIsolated && !p.marginMode.Isolated?)
    case MaintenanceMargin => RuleMaintenanceMargin(p, c, l)
    case Slippage => RejectIf(c.slippageBps.Some? && c.slippageBps.value > l.maxSlippageBps)
    case PriceImpact => RejectIf(c.priceImpact.Some? && c.priceImpact.value > l.maxPriceImpact)
    case PerTradeRisk => RulePerTradeRisk(p, c, l)
    case PositionCap => RulePositionCap(p, c, l)
    case GrossExposure => RuleGrossExposure(p, c, l)
    case SymbolConcentration => RuleSymbolConcentration(p, c, l)
    case CorrelatedExposure => RuleCorrelatedExposure(p, c, l)
    case CvarLimit => RuleCvar(p, c, l)
    case LeverageModelCut => Pass
    case Preflight => Pass
  }

  function Findings(p: Proposal, c: Context, l: Limits): seq<Finding> {
    seq(|RULES|, i requires 0 <= i < |RULES| => Finding(RULES[i], Evaluate(RULES[i], p, c, l)))
  }

  /** The rejecting rules, in order. */
  function Rejecting(findings: seq<Finding>): seq<Rule> {
    if findings == [] then []
    else (if findings[0].outcome.Reject? then [findings[0].rule] else []) + Rejecting(findings[1..])
  }

  /** The downsizing rules, in order. */
  function Downsizing(findings: seq<Finding>): seq<Rule> {
    if findings == [] then []
    else (if findings[0].outcome.Downsize? then [findings[0].rule] else []) + Downsizing(findings[1..])
  }

  /** The smallest of a size and every bound a rule put on it. */
  function Tightest(findings: seq<Finding>, size: real): real {
    if findings == [] then size
    else
      var rest := Tightest(findings[1..], size);
      if findings[0].outcome.Downsize? && findings[0].outcome.maxSize < rest then findings[0].outcome.maxSize else rest
  }

  function Judge(findings: seq<Finding>, size: real): Assessment {
    if Rejecting(findings) != [] then Assessment(Rejected, Rejecting(findings), None)
    else if Downsizing(findings) != [] then Assessment(Downsized, Downsizing(findings), Some(Tightest(findings, size)))
    else Assessment(Approved, [], None)
  }

  function Assess(p: Proposal, c: Context, l: Limits): Assessment {
    Judge(Findings(p, c, l), p.size)
  }

  /** The engine's first pass over the findings. */
  method CollectRejects(results: seq<Finding>) returns (rejects: seq<Rule>)
    ensures rejects == Rejecting(results)
  {
    rejects := [];
    for i := 0 to |results|
      invariant rejects + Rejecting(results[i..]) == Rejecting(results)
    {
      if results[i].outcome.Reject? {
        rejects := rejects + [results[i].rule];
      }
    }
  }

  /** The engine's second pass over the findings. */
  method CollectDownsizes(results: seq<Finding>, size: real) returns (violations: seq<Rule>, adjusted: real)
    ensures violations == Downsizing(results)
    ensures adjusted == Tightest(results, size)
  {
    violations, adjusted := [], size;
    for i := 0 to |results|
      invariant violations + Downsizing(results[i..]) == Downsizing(results)
      invariant Tightest(results[i..], adjusted) == Tightest(results, size)
    {
      if results[i].outcome.Downsize? {
        violations := violations + [results[i].rule];
        TightestAbsorbs(results[i + 1..], adjusted, results[i].outcome.maxSize);
        if results[i].outcome.maxSize < adjusted {
          adjusted := results[i].outcome.maxSize;
        }
      }
    }
  }

  method AssessByLoops(p: Proposal, c: Context, l: Limits) returns (assessment: Assessment)
    ensures assessment == Assess(p, c, l)
  {
    hide Findings;
    var results := Findings(p, c, l);
    var rejects := CollectRejects(results);
    if |rejects| > 0 {
      return Assessment(Rejected, rejects, None);
    }
    var violations, adjusted := CollectDownsizes(results, p.size);
    if |violations| > 0 {
      return Assessment(Downsized, violations, Some(adjusted));
    }
    return Assessment(Approved, [], None);
  }

  lemma {:induction false} TightestAbsorbs(findings: seq<Finding>, size: real, bound: real)
    ensures Tightest(findings, if bound < size then bound else size) ==
            (if bound < Tightest(findings, size) then bound else Tightest(findings, size))
  {
    if findings != [] {
      TightestAbsorbs(findings[1..], size, bound);
    }
  }

  lemma FindingsAreInOrder(p: Proposal, c: Context, l: Limits)
    ensures |Findings(p, c, l)| == |RULES|
    ensures forall i :: 0 <= i < |RULES| ==> Findings(p, c, l)[i] == Finding(RULES[i], Evaluate(RULES[i], p, c, l))
  {
    hide Evaluate;
  }

  lemma EveryRuleIsListed(rule: Rule) returns (i: int)
    requires rule != LeverageModelCut && rule != Preflight
    ensures 0 <= i < |RULES| && RULES[i] == rule
  {
    i := match rule
      case KillSwitch => 0 case Reconciling => 1 case DrawdownCircuit => 2 case ConsecutiveLosses => 3
      case OrderRate => 4 case StopLossRequired => 5 case LeverageCap => 6 case MarginBudget => 7
      case LiquidationBuffer => 8 case MarginModeRule => 9 case MaintenanceMargin => 10 case Slippage => 11
      case PriceImpact => 12 case PerTradeRisk => 13 case PositionCap => 14 case GrossExposure => 15
      case SymbolConcentration => 16 case CorrelatedExposure => 17 case CvarLimit => 18;
  }

  /** All findings pass exactly when every rule does. */
  lemma AllPassByRule(p: Proposal, c: Context, l: Limits)
    ensures AllPass(Findings(p, c, l)) <==> forall rule :: Evaluate(rule, p, c, l).Pass?
  {
    FindingsAreInOrder(p, c, l);
    assert Evaluate(LeverageModelCut, p, c, l).Pass? && Evaluate(Preflight, p, c, l).Pass?;
    hide Evaluate, Findings;
    if AllPass(Findings(p, c, l)) {
      forall rule ensures Evaluate(rule, p, c, l).Pass? {
        if rule != LeverageModelCut && rule != Preflight {
          var i := EveryRuleIsListed(rule);
          assert Findings(p, c, l)[i].outcome.Pass?;
        }
      }
    }
  }

  // What a verdict says about the findings.

  ghost predicate NoReject(findings: seq<Finding>) {
    forall i :: 0 <= i < |findings| ==> !findings[i].outcome.Reject?
  }

  ghost predicate AllPass(findings: seq<Finding>) {
    forall i :: 0 <= i < |findings| ==> findings[i].outcome.Pass?
  }

  lemma {:induction false} RejectingEmpty(findings: seq<Finding>)
    ensures Rejecting(findings) == [] <==> NoReject(findings)
  {
    if findings != [] {
      RejectingEmpty(findings[1..]);
      assert forall i :: 0 <= i < |findings| ==> findings[i] == if i == 0 then findings[0] else findings[1..][i - 1];
    }
  }

  lemma {:induction false} DownsizingEmpty(findings: seq<Finding>)
    ensures Downsizing(findings) == [] <==> forall i :: 0 <= i < |findings| ==> !findings[i].outcome.Downsize?
  {
    if findings != [] {
      DownsizingEmpty(findings[1..]);
      assert forall i :: 0 <= i < |findings| ==> findings[i] == if i == 0 then findings[0] else findings[1..][i - 1];
    }
  }

  /** A size is at or below the tightest bound exactly when it is below the start and every bound. */
  lemma {:induction false} TightestIsGreatestLowerBound(findings: seq<Finding>, size: real, s: real)
    ensures s <= Tightest(findings, size) <==>
            s <= size && forall i :: 0 <= i < |findings| && findings[i].outcome.Downsize? ==> s <= findings[i].outcome.maxSize
  {
    if findings != [] {
      TightestIsGreatestLowerBound(findings[1..], size, s);
      assert forall i :: 0 <= i < |findings| ==> findings[i] == if i == 0 then findings[0] else findings[1..][i - 1];
    }
  }

  lemma Verdicts(findings: seq<Finding>, size: real)
    ensures Judge(findings, size).verdict == Rejected <==> !NoReject(findings)
    ensures Judge(findings, size).verdict == Approved <==> AllPass(findings)
  {
    RejectingEmpty(findings);
    DownsizingEmpty(findings);
  }

  // How a rule's outcome moves with the size.

  /** The outcome at a smaller size, given the outcome at the present one. */
  predicate Rescales(before: Outcome, after: Outcome, s: real) {
    match before
    case Pass => after.Pass?
    case Reject => after.Reject?
    case Downsize(maxSize) => after == (if s <= maxSize then Pass else before)
  }

  ghost predicate FindingsRescale(before: seq<Finding>, after: seq<Finding>, s: real) {
    && |before| == |after|
    && forall i :: 0 <= i < |before| ==> Rescales(before[i].outcome, after[i].outcome, s)
  }

  function Resized(p: Proposal, s: real): Proposal { p.(size := s) }

  lemma QuotientExceeds(a: real, b: real, bound: real)
    requires b > 0.0
    ensures a / b > bound <==> a > bound * b
  {
    var q := a / b;
    assert q * b == a;
    LeverageModel.Ordered(q, bound, b);
  }

  lemma MarginRescales(p: Proposal, c: Context, l: Limits, s: real)
    requires s <= p.size
    ensures s > 0.0 || !RuleMarginBudget(p, c, l).Reject? ==>
              Rescales(RuleMarginBudget(p, c, l), RuleMarginBudget(Resized(p, s), c, l), s)
    ensures RuleMarginBudget(p, c, l).Downsize? ==> RuleMarginBudget(p, c, l).maxSize < p.size
  {
    assert ExistingNotional(Resized(p, s)) == ExistingNotional(p);
    if p.leverage > 0.0 {
      var budget := c.equity * l.maxMarginPct;
      QuotientExceeds(p.size + ExistingNotional(p), p.leverage, budget);
      QuotientExceeds(s + ExistingNotional(p), p.leverage, budget);
    }
  }

  lemma RiskRescales(p: Proposal, c: Context, l: Limits, s: real)
    requires s <= p.size
    ensures Rescales(RulePerTradeRisk(p, c, l), RulePerTradeRisk(Resized(p, s), c, l), s)
    ensures RulePerTradeRisk(p, c, l).Downsize? ==> RulePerTradeRisk(p, c, l).maxSize < p.size
  {
    if p.stopLoss.Some? && c.refPrice > 0.0 {
      var stopFraction := Abs(c.refPrice - p.stopLoss.value) / c.refPrice;
      if stopFraction > 0.0 {
        var budget := c.equity * l.maxRiskPerTrade;
        var bound := budget / stopFraction;
        assert bound * stopFraction == budget;
        LeverageModel.Ordered(p.size, bound, stopFraction);
        LeverageModel.Ordered(s, bound, stopFraction);
      }
    }
  }

  lemma PositionRescales(p: Proposal, c: Context, l: Limits, s: real)
    requires s <= p.size
    ensures s > 0.0 || !RulePositionCap(p, c, l).Reject? ==>
              Rescales(RulePositionCap(p, c, l), RulePositionCap(Resized(p, s), c, l), s)
    ensures RulePositionCap(p, c, l).Downsize? ==> RulePositionCap(p, c, l).maxSize < p.size
  {
  }

  lemma ExposureRescales(p: Proposal, c: Context, l: Limits, s: real)
    requires s <= p.size
    ensures Rescales(RuleGrossExposure(p, c, l), RuleGrossExposure(Resized(p, s), c, l), s)
    ensures Rescales(RuleSymbolConcentration(p, c, l), RuleSymbolConcentration(Resized(p, s), c, l), s)
    ensures Rescales(RuleCorrelatedExposure(p, c, l), RuleCorrelatedExposure(Resized(p, s), c, l), s)
    ensures RuleGrossExposure(p, c, l).Downsize? ==> RuleGrossExposure(p, c, l).maxSize < p.size
    ensures RuleSymbolConcentration(p, c, l).Downsize? ==> RuleSymbolConcentration(p, c, l).maxSize < p.size
    ensures RuleCorrelatedExposure(p, c, l).Downsize? ==> RuleCorrelatedExposure(p, c, l).maxSize < p.size
  {
  }

  lemma FixedRulesIgnoreSize(p: Proposal, c: Context, l: Limits, s: real)
    ensures RuleDrawdown(Resized(p, s), c, l) == RuleDrawdown(p, c, l) && !RuleDrawdown(p, c, l).Downsize?
    ensures RuleStopLoss(Resized(p, s), c) == RuleStopLoss(p, c) && !RuleStopLoss(p, c).Downsize?
    ensures RuleLiquidationBuffer(Resized(p, s), c, l) == RuleLiquidationBuffer(p, c, l)
    ensures !RuleLiquidationBuffer(p, c, l).Downsize?
    ensures RuleMaintenanceMargin(Resized(p, s), c, l) == RuleMaintenanceMargin(p, c, l)
    ensures !RuleMaintenanceMargin(p, c, l).Downsize?
    ensures RuleCvar(Resized(p, s), c, l) == RuleCvar(p, c, l) && !RuleCvar(p, c, l).Downsize?
  {
  }

  lemma RuleRescales(rule: Rule, p: Proposal, c: Context, l: Limits, s: real)
    requires s <= p.size
    requires s > 0.0 || !Evaluate(rule, p, c, l).Reject?
    ensures Rescales(Evaluate(rule, p, c, l), Evaluate(rule, Resized(p, s), c, l), s)
    ensures Evaluate(rule, p, c, l).Downsize? ==> Evaluate(rule, p, c, l).maxSize < p.size
  {
    match rule {
      case MarginBudget => MarginRescales(p, c, l, s);
      case PerTradeRisk => RiskRescales(p, c, l, s);
      case PositionCap => PositionRescales(p, c, l, s);
      case GrossExposure => ExposureRescales(p, c, l, s);
      case SymbolConcentration => ExposureRescales(p, c, l, s);
      case CorrelatedExposure => ExposureRescales(p, c, l, s);
      case _ => FixedRulesIgnoreSize(p, c, l, s);
    }
    hide RuleMarginBudget, RulePerTradeRisk, RulePositionCap, RuleGrossExposure, RuleSymbolConcentration,
      RuleCorrelatedExposure, RuleDrawdown, RuleStopLoss, RuleLiquidationBuffer, RuleMaintenanceMargin, RuleCvar;
  }

  /** Shrinking an order moves every finding as its outcome says; a rejection survives while the size stays positive. */
  lemma ShrinkingRescales(p: Proposal, c: Context, l: Limits, s: real)
    requires s <= p.size
    requires s > 0.0 || NoReject(Findings(p, c, l))
    ensures FindingsRescale(Findings(p, c, l), Findings(Resized(p, s), c, l), s)
    ensures forall i :: 0 <= i < |Findings(p, c, l)| && Findings(p, c, l)[i].outcome.Downsize? ==>
                          Findings(p, c, l)[i].outcome.maxSize < p.size
  {
    hide Evaluate;
    var before, after := Findings(p, c, l), Findings(Resized(p, s), c, l);
    forall i | 0 <= i < |RULES|
      ensures Rescales(before[i].outcome, after[i].outcome, s)
      ensures before[i].outcome.Downsize? ==> before[i].outcome.maxSize < p.size
    {
      assert before[i].outcome == Evaluate(RULES[i], p, c, l);
      RuleRescales(RULES[i], p, c, l, s);
    }
  }

  /** The adjusted size: the tightest bound, or the order's own size. */
  function AdjustedSize(p: Proposal, c: Context, l: Limits): real {
    Tightest(Findings(p, c, l), p.size)
  }

  lemma ApprovedExactlyUpToAdjusted(p: Proposal, c: Context, l: Limits, s: real)
    requires Assess(p, c, l).verdict != Rejected
    requires s <= p.size
    ensures Assess(Resized(p, s), c, l).verdict == Approved <==> s <= AdjustedSize(p, c, l)
    ensures Assess(Resized(p, s), c, l).verdict != Rejected
  {
    hide Findings;
    var before, after := Findings(p, c, l), Findings(Resized(p, s), c, l);
    Verdicts(before, p.size);
    ShrinkingRescales(p, c, l, s);
    Verdicts(after, s);
    hide Judge;
    TightestIsGreatestLowerBound(before, p.size, s);
    assert forall i :: 0 <= i < |before| ==> Rescales(before[i].outcome, after[i].outcome, s);
  }

  lemma AdjustedSizeOf(p: Proposal, c: Context, l: Limits)
    requires Assess(p, c, l).verdict != Rejected
    ensures AdjustedSize(p, c, l) <= p.size
    ensures Assess(p, c, l).adjustedSize ==
            if Assess(p, c, l).verdict == Downsized then Some(AdjustedSize(p, c, l)) else None
    ensures Assess(p, c, l).verdict == Downsized <==> AdjustedSize(p, c, l) < p.size
  {
    hide Findings;
    TightestIsGreatestLowerBound(Findings(p, c, l), p.size, AdjustedSize(p, c, l));
    ApprovedExactlyUpToAdjusted(p, c, l, p.size);
    assert Resized(p, p.size) == p;
  }

  /**
   Main result.  A non-rejected order is approved at a smaller size exactly when that size is at most
   the adjusted one (the order's own size when nothing was adjusted), so the adjusted size is the greatest
   approvable one; and re-assessing at it approves.
   */
  lemma AdjustedSizeIsGreatestApproved(p: Proposal, c: Context, l: Limits, s: real)
    requires Assess(p, c, l).verdict != Rejected
    requires s <= p.size
    ensures
      var adjusted := if Assess(p, c, l).adjustedSize.Some? then Assess(p, c, l).adjustedSize.value else p.size;
      && (Assess(Resized(p, s), c, l).verdict == Approved <==> s <= adjusted)
      && Assess(Resized(p, s), c, l).verdict != Rejected
      && (Assess(p, c, l).verdict == Downsized <==> adjusted < p.size)
      && Assess(Resized(p, adjusted), c, l) == Assessment(Approved, [], None)
  {
    AdjustedSizeOf(p, c, l);
    ApprovedExactlyUpToAdjusted(p, c, l, s);
    ApprovedExactlyUpToAdjusted(p, c, l, AdjustedSize(p, c, l));
    hide AdjustedSize, Findings;
  }

  /** Main result.  A rejected order stays rejected at every smaller positive size, for the same reasons. */
  lemma RejectionPersists(p: Proposal, c: Context, l: Limits, s: real)
    requires Assess(p, c, l).verdict == Rejected
    requires 0.0 < s <= p.size
    ensures Assess(Resized(p, s), c, l) == Assess(p, c, l)
  {
    hide Findings;
    ShrinkingRescales(p, c, l, s);
    Verdicts(Findings(p, c, l), p.size);
    FindingsAreInOrder(p, c, l);
    FindingsAreInOrder(Resized(p, s), c, l);
    SameRejections(Findings(p, c, l), Findings(Resized(p, s), c, l), s);
  }

  lemma {:induction false} SameRejections(before: seq<Finding>, after: seq<Finding>, s: real)
    requires FindingsRescale(before, after, s)
    requires forall i :: 0 <= i < |before| ==> before[i].rule == after[i].rule
    ensures Rejecting(before) == Rejecting(after)
  {
    if before != [] {
      SameRejections(before[1..], after[1..], s);
      assert Rescales(before[0].outcome, after[0].outcome, s);
    }
  }

  /** The condition each rule puts on an opening order, with the rules' quotients multiplied out. */
  ghost predicate Condition(rule: Rule, p: Proposal, c: Context, l: Limits) {
    match rule
    case KillSwitch => !c.kill
    case Reconciling => !c.reconciling
    case DrawdownCircuit =>
      && c.totalDrawdown < l.maxDrawdownLimit
      && c.weeklyDrawdown < l.weeklyDrawdownLimit
      && c.dailyDrawdown < l.dailyDrawdownLimit
    case ConsecutiveLosses => c.consecutiveLosses < l.maxConsecutiveLosses
    case OrderRate => c.ordersLastHour < l.maxOrdersPerHour
    case StopLossRequired =>
      p.stopLoss.Some? && if p.side.Long? then p.stopLoss.value < c.refPrice else c.refPrice < p.stopLoss.value
    case LeverageCap => p.leverage <= l.maxLeverage
    case MarginBudget => p.instrument.Perp? && c.equity > 0.0 && l.maxMarginPct > 0.0 ==> MarginWithinBudget(p, c, l)
    case LiquidationBuffer =>
      p.instrument.Perp? && c.liquidationPrice.Some? && c.refPrice > 0.0 ==> KeepsLiquidationDistance(p, c, l)
    case MarginModeRule => p.instrument.Perp? && l.forceIsolated ==> p.marginMode.Isolated?
    case MaintenanceMargin => p.instrument.Perp? && c.marginRatio.Some? ==> c.marginRatio.value >= l.minMarginRatio
    case Slippage => c.slippageBps.Some? ==> c.slippageBps.value <= l.maxSlippageBps
    case PriceImpact => c.priceImpact.Some? ==> c.priceImpact.value <= l.maxPriceImpact
    case PerTradeRisk => p.stopLoss.Some? && c.refPrice > 0.0 ==> RiskWithinBudget(p, c, l)
    case PositionCap => p.size + ExistingNotional(p) <= c.equity * l.maxPositionPct
    case GrossExposure => HasRoom(p.size, c.grossExposure, c.equity * l.maxGrossExposure)
    case SymbolConcentration => HasRoom(p.size, c.symbolExposure, c.equity * l.maxSymbolConcentration)
    case CorrelatedExposure =>
      c.correlatedExposure.Some? ==> HasRoom(p.size, c.correlatedExposure.value, c.equity * l.maxCorrelatedExposure)
    case CvarLimit => c.portfolioCvar.Some? ==> c.portfolioCvar.value <= c.equity * l.maxCvarPct
    case LeverageModelCut => true
    case Preflight => true
  }

  /** What is lost at a stop away from the price stays within the risk budget of one trade, both times the price. */
  ghost predicate RiskWithinBudget(p: Proposal, c: Context, l: Limits)
    requires p.stopLoss.Some? && c.refPrice > 0.0
  {
    && p.stopLoss.value != c.refPrice
    && p.size * Abs(c.refPrice - p.stopLoss.value) <= c.equity * l.maxRiskPerTrade * c.refPrice
  }

  /** The position, existing part included, is financed by the margin budget at the order's leverage. */
  ghost predicate MarginWithinBudget(p: Proposal, c: Context, l: Limits) {
    p.leverage > 0.0 && p.size + ExistingNotional(p) <= c.equity * l.maxMarginPct * p.leverage
  }

  ghost predicate HasRoom(size: real, used: real, cap: real) {
    used < cap && size + used <= cap
  }

  /** Liquidation is at least the required fraction of the price away. */
  ghost predicate KeepsLiquidationDistance(p: Proposal, c: Context, l: Limits)
    requires c.liquidationPrice.Some? && c.refPrice > 0.0
  {
    var distance := Abs(c.refPrice - c.liquidationPrice.value);
    && distance >= (l.minLiquidationBuffer + l.reservePct) * c.refPrice
    && (p.leveragePlan.Some? ==> distance >= p.leveragePlan.value.requiredBuffer * c.refPrice)
  }

  lemma MarginPassesWithinBudget(p: Proposal, c: Context, l: Limits)
    requires IsOpen(p) && p.instrument.Perp? && c.equity > 0.0 && l.maxMarginPct > 0.0
    ensures RuleMarginBudget(p, c, l).Pass? <==> MarginWithinBudget(p, c, l)
  {
    if p.leverage > 0.0 {
      QuotientExceeds(p.size + ExistingNotional(p), p.leverage, c.equity * l.maxMarginPct);
    }
  }

  lemma PerTradeRiskPasses(p: Proposal, c: Context, l: Limits)
    requires IsOpen(p) && p.stopLoss.Some? && c.refPrice > 0.0
    ensures RulePerTradeRisk(p, c, l).Pass? <==> RiskWithinBudget(p, c, l)
  {
    var distance, price, size := Abs(c.refPrice - p.stopLoss.value), c.refPrice, p.size;
    QuotientExceeds(distance, price, 0.0);
    ScaledQuotient(size, distance, price);
    QuotientExceeds(size * distance, price, c.equity * l.maxRiskPerTrade);
  }

  lemma ScaledQuotient(a: real, b: real, c: real)
    requires c > 0.0
    ensures a * (b / c) == a * b / c
  {
    assert b / c * c == b;
    assert (a * (b / c)) * c == a * b;
  }

  lemma LiquidationBufferPasses(p: Proposal, c: Context, l: Limits)
    requires IsOpen(p) && p.instrument.Perp? && c.liquidationPrice.Some? && c.refPrice > 0.0
    ensures RuleLiquidationBuffer(p, c, l).Pass? <==> KeepsLiquidationDistance(p, c, l)
  {
    hide Abs;
    var distance, price := Abs(c.refPrice - c.liquidationPrice.value), c.refPrice;
    QuotientFalls(distance, price, l.minLiquidationBuffer + l.reservePct);
    if p.leveragePlan.Some? {
      QuotientFalls(distance, price, p.leveragePlan.value.requiredBuffer);
    }
  }

  lemma QuotientFalls(a: real, b: real, c: real)
    requires b > 0.0
    ensures a / b < c <==> a < c * b
  {
    QuotientExceeds(-a, b, -c);
    assert (-a) / b == -(a / b);
  }

  lemma PassesExactlyOnCondition(rule: Rule, p: Proposal, c: Context, l: Limits)
    requires IsOpen(p)
    ensures Evaluate(rule, p, c, l).Pass? <==> Condition(rule, p, c, l)
  {
    match rule {
      case MarginBudget =>
        if p.instrument.Perp? && c.equity > 0.0 && l.maxMarginPct > 0.0 {
          MarginPassesWithinBudget(p, c, l);
        }
      case PerTradeRisk =>
        if p.stopLoss.Some? && c.refPrice > 0.0 {
          PerTradeRiskPasses(p, c, l);
        }
      case LiquidationBuffer =>
        if p.instrument.Perp? && c.liquidationPrice.Some? && c.refPrice > 0.0 {
          LiquidationBufferPasses(p, c, l);
        }
      case _ =>
    }
    hide RiskWithinBudget, MarginWithinBudget, KeepsLiquidationDistance, Abs;
  }

  /** An opening order is approved exactly when it meets the condition of every rule. */
  lemma ApprovedExactlyWithinLimits(p: Proposal, c: Context, l: Limits)
    requires IsOpen(p)
    ensures Assess(p, c, l).verdict == Approved <==> forall rule :: Condition(rule, p, c, l)
  {
    hide Findings, Evaluate, Condition;
    Verdicts(Findings(p, c, l), p.size);
    AllPassByRule(p, c, l);
    forall rule ensures Evaluate(rule, p, c, l).Pass? <==> Condition(rule, p, c, l) {
      PassesExactlyOnCondition(rule, p, c, l);
    }
    if forall rule :: Condition(rule, p, c, l) {
      forall rule ensures Evaluate(rule, p, c, l).Pass? {
        assert Condition(rule, p, c, l);
      }
    } else {
      var rule :| !Condition(rule, p, c, l);
      assert !Evaluate(rule, p, c, l).Pass?;
    }
  }

  /**
   The rules that leave room for an order reject exactly when they would pass no positive size at all;
   otherwise they cut it to a size that they pass.
   */
  lemma RejectsWhenNothingFits(rule: Rule, p: Proposal, c: Context, l: Limits)
    requires IsOpen(p) && p.size > 0.0
    requires rule in {MarginBudget, PositionCap, GrossExposure, SymbolConcentration, CorrelatedExposure}
    ensures Evaluate(rule, p, c, l).Reject? <==> forall s :: s > 0.0 ==> !Evaluate(rule, Resized(p, s), c, l).Pass?
    ensures Evaluate(rule, p, c, l).Downsize? ==>
      var m := Evaluate(rule, p, c, l).maxSize;
      0.0 < m < p.size && Evaluate(rule, Resized(p, m), c, l).Pass?
  {
    hide Evaluate, Abs;
    CutIsPositive(rule, p, c, l);
    assert Resized(p, p.size) == p;
    RuleRescales(rule, p, c, l, p.size);
    match Evaluate(rule, p, c, l)
    case Pass =>
    case Downsize(m) => RuleRescales(rule, p, c, l, m);
    case Reject =>
      forall s | s > 0.0 ensures !Evaluate(rule, Resized(p, s), c, l).Pass? {
        if s <= p.size {
          RuleRescales(rule, p, c, l, s);
        } else {
          assert Resized(Resized(p, s), p.size) == p;
          RuleRescales(rule, Resized(p, s), c, l, p.size);
        }
      }
  }

  lemma CutIsPositive(rule: Rule, p: Proposal, c: Context, l: Limits)
    requires rule in {MarginBudget, PositionCap, GrossExposure, SymbolConcentration, CorrelatedExposure}
    ensures Evaluate(rule, p, c, l).Downsize? ==> Evaluate(rule, p, c, l).maxSize > 0.0
  {
    hide Abs;
  }

  /** An order that opens nothing is rejected for the venue's slippage and price impact alone, and never cut. */
  lemma FlatOrderIsAssessed(p: Proposal, c: Context, l: Limits)
    requires p.side.Flat?
    ensures Assess(p, c, l).verdict == Approved <==>
      && (c.slippageBps.Some? ==> c.slippageBps.value <= l.maxSlippageBps)
      && (c.priceImpact.Some? ==> c.priceImpact.value <= l.maxPriceImpact)
    ensures Assess(p, c, l).verdict != Downsized
    ensures Assess(p, c, l).violations ==
      (if c.slippageBps.Some? && c.slippageBps.value > l.maxSlippageBps then [Slippage] else [])
      + (if c.priceImpact.Some? && c.priceImpact.value > l.maxPriceImpact then [PriceImpact] else [])
  {
    hide Findings, Evaluate, Rejecting, Downsizing, Tightest;
    var findings := Findings(p, c, l);
    FindingsAreInOrder(p, c, l);
    forall i | 0 <= i < |RULES| && i != 11 && i != 12 ensures findings[i].outcome.Pass? {
      FlatRulePasses(RULES[i], p, c, l);
    }
    VenueRules(p, c, l);
    assert findings[11] == Finding(Slippage, Evaluate(Slippage, p, c, l));
    assert findings[12] == Finding(PriceImpact, Evaluate(PriceImpact, p, c, l));
    TwoMayReject(findings);
  }

  lemma VenueRules(p: Proposal, c: Context, l: Limits)
    ensures Evaluate(Slippage, p, c, l) == if c.slippageBps.Some? && c.slippageBps.value > l.maxSlippageBps then Reject else Pass
    ensures Evaluate(PriceImpact, p, c, l) == if c.priceImpact.Some? && c.priceImpact.value > l.maxPriceImpact then Reject else Pass
  {
  }

  lemma TwoMayReject(findings: seq<Finding>)
    requires |findings| > 13 && !findings[11].outcome.Downsize? && !findings[12].outcome.Downsize?
    requires forall i :: 0 <= i < |findings| && i != 11 && i != 12 ==> findings[i].outcome.Pass?
    ensures Downsizing(findings) == []
    ensures Rejecting(findings) ==
      (if findings[11].outcome.Reject? then [findings[11].rule] else [])
      + (if findings[12].outcome.Reject? then [findings[12].rule] else [])
  {
    DownsizingEmpty(findings);
    SkipsPasses(findings, 11);
    var rest := findings[11..];
    assert rest[1..][1..] == findings[13..];
    assert rest[0] == findings[11] && rest[1..][0] == findings[12];
    SkipsPasses(findings[13..], |findings[13..]|);
  }

  lemma FlatRulePasses(rule: Rule, p: Proposal, c: Context, l: Limits)
    requires p.side.Flat? && rule != Slippage && rule != PriceImpact
    ensures Evaluate(rule, p, c, l).Pass?
  {
  }

  lemma {:induction false} SkipsPasses(findings: seq<Finding>, k: nat)
    requires k <= |findings| && forall i :: 0 <= i < k ==> findings[i].outcome.Pass?
    ensures Rejecting(findings) == Rejecting(findings[k..])
  {
    if k > 0 {
      SkipsPasses(findings[1..], k - 1);
      assert findings[1..][k - 1..] == findings[k..];
    }
  }
}
