/**
 The reassessment loop of internal/orchestrator/leverage.go: the leverage model and the risk engine
 feed each other, at most three times, while the venue preflight answers whatever it likes.
 */
module SizingLoop {
  import opened Wrappers
  import opened RiskEngine
  import opened SizingModel
  import LM = LeverageModel

  datatype LoopError = ModelFailed(error: ModelError) | PreflightFailed | DidNotConverge

  datatype PreflightAnswer =
    | Unavailable
    | Refused
    | Ready(slippageBps: Option<real>, liquidationPrice: Option<real>, priceImpact: Option<real>)

  /** What the loop returns; context and rounds record the state of its last assessment. */
  datatype Run = Run(error: Option<LoopError>, assessment: Option<Assessment>, proposal: Proposal, context: Context, rounds: nat)

  function WithPreflight(c: Context, answer: PreflightAnswer): Context
    requires answer.Ready?
  {
    c.(slippageBps := answer.slippageBps, liquidationPrice := answer.liquidationPrice, priceImpact := answer.priceImpact)
  }

  /** reassessExecutableProposal from a given attempt on, with the reasons collected so far. */
  function Reassess(p: Proposal, c: Context, l: Limits, preflight: nat -> PreflightAnswer, slack: LM.Slack,
                    attempt: nat, reasons: seq<Rule>): Run
    decreases 3 - attempt
  {
    if attempt >= 3 then Run(Some(DidNotConverge), None, p, c, attempt)
    else
      var (modelled, error) := ApplyModel(p, c.equity, l, slack);
      if error.Some? then Run(Some(ModelFailed(error.value)), None, modelled, c, attempt + 1)
      else
        var cut := reasons + if modelled.size < p.size then [LeverageModelCut] else [];
        match preflight(attempt)
        case Unavailable => Run(Some(PreflightFailed), None, modelled, c, attempt + 1)
        case Refused => Run(None, Some(Assessment(Rejected, [Preflight], None)), modelled, c, attempt + 1)
        case Ready(_, _, _) =>
          var c' := WithPreflight(c, preflight(attempt));
          var assessment := Assess(modelled, c', l);
          if assessment.verdict == Rejected then Run(None, Some(assessment), modelled, c', attempt + 1)
          else if assessment.adjustedSize.Some? && assessment.adjustedSize.value < modelled.size then
            Reassess(Resized(modelled, assessment.adjustedSize.value), c', l, preflight, slack,
                     attempt + 1, cut + assessment.violations)
          else if cut != [] then
            Run(None, Some(assessment.(verdict := Downsized, violations := cut)), modelled, c', attempt + 1)
          else
            Run(None, Some(assessment), modelled, c', attempt + 1)
  }

  /** The program's loop, with its own slack. */
  method ReassessExecutableProposal(p: Proposal, c: Context, l: Limits, preflight: nat -> PreflightAnswer)
    returns (run: Run)
    ensures run == Reassess(p, c, l, preflight, LM.FLOAT_SLACK, 0, [])
    ensures ApprovedAsReturned(run, p.size, c, l, preflight, 0, [])
    ensures run.error.None? ==> exists q :: ModelOf(p, q, c.equity, l, LM.FLOAT_SLACK, run.proposal)
  {
    hide ApplyModel, Assess, ApprovedAsReturned, ModelOf;
    LoopResult(p, c, l, preflight, LM.FLOAT_SLACK, 0, []);
    LoopIsModelled(p, c, l, preflight, LM.FLOAT_SLACK, 0, []);
    var proposal, context := p, c;
    var reasons: seq<Rule> := [];
    for attempt := 0 to 3
      invariant Reassess(proposal, context, l, preflight, LM.FLOAT_SLACK, attempt, reasons) ==
                Reassess(p, c, l, preflight, LM.FLOAT_SLACK, 0, [])
    {
      var before := proposal.size;
      var (modelled, error) := ApplyModel(proposal, context.equity, l, LM.FLOAT_SLACK);
      proposal := modelled;
      if error.Some? {
        return Run(Some(ModelFailed(error.value)), None, proposal, context, attempt + 1);
      }
      assert reasons + [] == reasons;
      if proposal.size < before {
        reasons := reasons + [LeverageModelCut];
      }
      var answer := preflight(attempt);
      if answer.Unavailable? {
        return Run(Some(PreflightFailed), None, proposal, context, attempt + 1);
      }
      if answer.Refused? {
        return Run(None, Some(Assessment(Rejected, [Preflight], None)), proposal, context, attempt + 1);
      }
      context := context.(slippageBps := answer.slippageBps, liquidationPrice := answer.liquidationPrice,
                          priceImpact := answer.priceImpact);
      var assessment := AssessByLoops(proposal, context, l);
      if assessment.verdict == Rejected {
        return Run(None, Some(assessment), proposal, context, attempt + 1);
      }
      if assessment.adjustedSize.Some? && assessment.adjustedSize.value < proposal.size {
        reasons := reasons + assessment.violations;
        proposal := Resized(proposal, assessment.adjustedSize.value);
      } else {
        if |reasons| > 0 {
          assessment := assessment.(verdict := Downsized, violations := reasons);
        }
        return Run(None, Some(assessment), proposal, context, attempt + 1);
      }
    }
    return Run(Some(DidNotConverge), None, proposal, context, 3);
  }

  // What one round leaves for the next.

  /** Every size rule but the margin budget passes. */
  predicate OtherSizeRulesPass(p: Proposal, c: Context, l: Limits) {
    && RulePerTradeRisk(p, c, l).Pass? && RulePositionCap(p, c, l).Pass?
    && RuleGrossExposure(p, c, l).Pass? && RuleSymbolConcentration(p, c, l).Pass?
    && RuleCorrelatedExposure(p, c, l).Pass?
  }

  /** The two contexts differ at most in what a preflight supplies. */
  predicate SameAccount(c: Context, d: Context) {
    d == c.(slippageBps := d.slippageBps, liquidationPrice := d.liquidationPrice, priceImpact := d.priceImpact)
  }

  /** The two proposals differ at most in what the model and a downsize rewrite. */
  predicate SameTrade(p: Proposal, q: Proposal) {
    q == p.(size := q.size, leverage := q.leverage, leveragePlan := q.leveragePlan)
  }

  /** The model never enlarges an order, and rewrites only its size, leverage and plan. */
  lemma ModelOnlyShrinks(p: Proposal, equity: real, l: Limits, slack: LM.Slack)
    ensures SameTrade(p, ApplyModel(p, equity, l, slack).0)
    ensures ApplyModel(p, equity, l, slack).0.size <= p.size
  {
    if IsOpen(p) && p.instrument.Perp? && EntryPrice(p.entry).Some? && EntryPrice(p.entry).value > 0.0 && p.stopLoss.Some? {
      hide LM.CalculateLeverage, ValidPlan, StopFraction;
      var input := LeverageInput(p, equity, l);
      if LM.CalculateLeverage(input, slack).Ok? {
        LM.Parts(input, slack);
      }
    }
  }

  /** Once the other size rules pass, they pass at every smaller size of the same trade and account. */
  lemma OtherSizeRulesKeepPassing(p: Proposal, c: Context, q: Proposal, d: Context, l: Limits)
    requires OtherSizeRulesPass(p, c, l)
    requires SameTrade(p, q) && SameAccount(c, d) && q.size <= p.size
    ensures OtherSizeRulesPass(q, d, l)
  {
    var r := Resized(p, q.size);
    RiskRescales(p, c, l, q.size);
    PositionRescales(p, c, l, q.size);
    ExposureRescales(p, c, l, q.size);
    assert OtherSizeRulesPass(r, c, l);
    SizeRulesReadTradeAndAccount(r, c, q, d, l);
  }

  lemma SizeRulesReadTradeAndAccount(p: Proposal, c: Context, q: Proposal, d: Context, l: Limits)
    requires SameTrade(p, q) && SameAccount(c, d) && q.size == p.size
    ensures RulePerTradeRisk(p, c, l) == RulePerTradeRisk(q, d, l)
    ensures RulePositionCap(p, c, l) == RulePositionCap(q, d, l)
    ensures RuleGrossExposure(p, c, l) == RuleGrossExposure(q, d, l)
    ensures RuleSymbolConcentration(p, c, l) == RuleSymbolConcentration(q, d, l)
    ensures RuleCorrelatedExposure(p, c, l) == RuleCorrelatedExposure(q, d, l)
  {
    assert q.side == p.side && q.stopLoss == p.stopLoss && q.addOn == p.addOn;
    assert d.equity == c.equity && d.refPrice == c.refPrice && d.correlatedExposure == c.correlatedExposure;
    hide SameTrade, SameAccount, RuleRoom, Abs;
  }

  lemma OnlyMarginCanFind(rule: Rule, p: Proposal, c: Context, l: Limits)
    requires OtherSizeRulesPass(p, c, l)
    requires rule != MarginBudget && !Evaluate(rule, p, c, l).Reject?
    ensures Evaluate(rule, p, c, l).Pass?
  {
    FixedRulesIgnoreSize(p, c, l, p.size);
    hide RuleMarginBudget, RulePerTradeRisk, RulePositionCap, RuleGrossExposure, RuleSymbolConcentration,
      RuleCorrelatedExposure, RuleDrawdown, RuleStopLoss, RuleLiquidationBuffer, RuleMaintenanceMargin, RuleCvar;
  }

  /** When only the margin rule can act, the assessment is its verdict. */
  lemma OnlyMarginActs(p: Proposal, c: Context, l: Limits)
    requires OtherSizeRulesPass(p, c, l)
    requires Assess(p, c, l).verdict != Rejected
    ensures !RuleMarginBudget(p, c, l).Reject?
    ensures RuleMarginBudget(p, c, l).Pass? ==> Assess(p, c, l) == Assessment(Approved, [], None)
    ensures RuleMarginBudget(p, c, l).Downsize? ==>
              Assess(p, c, l).adjustedSize == Some(RuleMarginBudget(p, c, l).maxSize)
  {
    assert Evaluate(MarginBudget, p, c, l) == RuleMarginBudget(p, c, l);
    hide Findings, Evaluate, RuleMarginBudget, OtherSizeRulesPass;
    var findings := Findings(p, c, l);
    Verdicts(findings, p.size);
    DownsizingEmpty(findings);
    FindingsAreInOrder(p, c, l);
    assert findings[7] == Finding(MarginBudget, RuleMarginBudget(p, c, l));
    forall i | 0 <= i < |findings| && findings[i].rule != MarginBudget ensures findings[i].outcome.Pass? {
      OnlyMarginCanFind(RULES[i], p, c, l);
    }
    MarginRescales(p, c, l, p.size);
    if RuleMarginBudget(p, c, l).Downsize? {
      TightestIsGreatestLowerBound(findings, p.size, findings[7].outcome.maxSize);
      TightestIsGreatestLowerBound(findings, p.size, Tightest(findings, p.size));
    }
  }

  /** The order a downsize leaves behind passes every size rule but, perhaps, the margin budget at a new leverage. */
  lemma DownsizeSettlesOtherRules(p: Proposal, c: Context, l: Limits)
    requires Assess(p, c, l).verdict != Rejected && Assess(p, c, l).adjustedSize.Some?
    ensures OtherSizeRulesPass(Resized(p, Assess(p, c, l).adjustedSize.value), c, l)
  {
    var q := Resized(p, Assess(p, c, l).adjustedSize.value);
    assert AllPass(Findings(q, c, l)) by {
      AdjustedSizeOf(p, c, l);
      ApprovedExactlyUpToAdjusted(p, c, l, q.size);
      Verdicts(Findings(q, c, l), q.size);
      hide Findings, AdjustedSize;
    }
    hide Findings, RulePerTradeRisk, RulePositionCap, RuleGrossExposure, RuleSymbolConcentration, RuleCorrelatedExposure;
    AllPassByRule(q, c, l);
    assert Evaluate(PerTradeRisk, q, c, l).Pass? && Evaluate(PositionCap, q, c, l).Pass?
      && Evaluate(GrossExposure, q, c, l).Pass? && Evaluate(SymbolConcentration, q, c, l).Pass?
      && Evaluate(CorrelatedExposure, q, c, l).Pass?;
  }

  /** Budget and step of the account. */
  function Budget(c: Context, l: Limits): real { c.equity * l.maxMarginPct }

  /** The margin notional: the order with what is already open. */
  function Notional(p: Proposal): real { p.size + ExistingNotional(p) }

  /**
   What the model did to a perpetual order: the notional is the requested one or exactly j steps of
   budget, and the leverage is a whole number of steps that covers the minimum and the notional.
   */
  lemma ModelFacts(p: Proposal, c: Context, l: Limits, slack: LM.Slack) returns (minimum: real, j: int, budget: real)
    requires IsOpen(p) && p.instrument.Perp?
    requires ApplyModel(p, c.equity, l, slack).1.None?
    ensures c.equity > 0.0 && l.maxMarginPct > 0.0 && 0.0 < l.leverageStep <= 1.0
    ensures budget == Budget(c, l) && budget > 0.0
    ensures
      var q := ApplyModel(p, c.equity, l, slack).0;
      && SameTrade(p, q)
      && (Notional(q) == Notional(p) || Notional(q) == budget * (j as real * l.leverageStep))
      && q.leverage == LM.CeilStep(LM.Max(minimum, Notional(q) / budget), l.leverageStep, slack)
      && q.leverage > 0.0
  {
    hide LM.CalculateLeverage, ValidPlan, ValidProposal, StopFraction, EntryPrice, LM.CeilStep, LM.CeilUnits,
      LM.SafeLeverage, LM.SafeUnits, LM.MinimumLeverage, LM.StressBuffer;
    var input := LeverageInput(p, c.equity, l);
    var q := ApplyModel(p, c.equity, l, slack).0;
    assert LM.CalculateLeverage(input, slack).Ok?;
    LM.Parts(input, slack);
    LM.AcceptedTerms(input);
    minimum, j, budget := LM.MinimumLeverage(input), LM.SafeUnits(input, slack), LM.MarginBudget(input);
    CapIsSafeSteps(input, slack);
    assert input.equity > 0.0 && input.maxMarginPct > 0.0;
  }

  lemma CapIsSafeSteps(input: LM.Input, slack: LM.Slack)
    requires LM.CalculateLeverage(input, slack).Ok?
    ensures LM.InputError(input).None? && LM.StressBuffer(input) > 0.0
    ensures LM.CalculateLeverage(input, slack).value.plan.maxNotional ==
            LM.MarginBudget(input) * (LM.SafeUnits(input, slack) as real * input.step)
  {
    hide *;
    LM.Parts(input, slack);
    LM.AcceptedTerms(input);
    SafeInSteps(input, slack);
    var plan := LM.CalculateLeverage(input, slack).value.plan;
    var safe := LM.SafeUnits(input, slack) as real * input.step;
    assert plan.safeMaxLeverage == safe && plan.marginBudget == LM.MarginBudget(input);
  }

  lemma SafeInSteps(input: LM.Input, slack: LM.Slack)
    requires input.step > 0.0 && LM.StressBuffer(input) > 0.0
    ensures LM.SafeLeverage(input, slack) == LM.SafeUnits(input, slack) as real * input.step
  {
    hide LM.SafeUnits, LM.StressBuffer;
  }

  /** The modelled order's margin fits the budget when the model worked in exact arithmetic or on exact steps. */
  lemma ModelledMarginFits(p: Proposal, c: Context, d: Context, l: Limits, slack: LM.Slack, k: int)
    requires IsOpen(p) && p.instrument.Perp?
    requires ApplyModel(p, c.equity, l, slack).1.None?
    requires SameAccount(c, d)
    requires slack == 0.0 || Notional(p) == Budget(c, l) * (k as real * l.leverageStep)
    ensures RuleMarginBudget(ApplyModel(p, c.equity, l, slack).0, d, l).Pass?
  {
    hide ApplyModel, RuleMarginBudget;
    var minimum, j, budget := ModelFacts(p, c, l, slack);
    var q := ApplyModel(p, c.equity, l, slack).0;
    assert IsOpen(q) && q.instrument.Perp? && d.equity == c.equity;
    MarginFits(Notional(q), budget, q.leverage, minimum, l.leverageStep, slack,
               if Notional(q) == Notional(p) then k else j);
    MarginPasses(q, d, l, budget, Notional(q));
  }

  lemma MarginPasses(q: Proposal, d: Context, l: Limits, budget: real, notional: real)
    requires IsOpen(q) && q.instrument.Perp? && d.equity > 0.0 && l.maxMarginPct > 0.0
    requires budget == d.equity * l.maxMarginPct && notional == q.size + ExistingNotional(q)
    requires notional <= budget * q.leverage && q.leverage > 0.0
    ensures RuleMarginBudget(q, d, l).Pass?
  {
    MarginPassesWithinBudget(q, d, l);
    hide *;
  }

  lemma MarginFits(notional: real, budget: real, leverage: real, minimum: real, step: real, slack: LM.Slack, k: int)
    requires step > 0.0 && budget > 0.0
    requires leverage == LM.CeilStep(LM.Max(minimum, notional / budget), step, slack)
    requires slack == 0.0 || notional == budget * (k as real * step)
    ensures notional <= budget * leverage
  {
    hide LM.CeilStep;
    if slack == 0.0 {
      LM.CoverKeepsMargin(notional, budget, minimum, step, slack);
      assert slack * step == 0.0;
    } else {
      LM.ExactStepsAreFinanced(notional, budget, k, minimum, step, slack);
    }
  }

  /** A downsize by the margin rule alone leaves exactly the chosen steps of budget. */
  lemma MarginDownsizeIsExact(q: Proposal, d: Context, l: Limits, k: int)
    requires RuleMarginBudget(q, d, l).Downsize?
    requires q.leverage == k as real * l.leverageStep
    ensures Notional(Resized(q, RuleMarginBudget(q, d, l).maxSize)) == Budget(d, l) * (k as real * l.leverageStep)
  {
    hide Abs;
    assert RuleMarginBudget(q, d, l).maxSize == d.equity * l.maxMarginPct * q.leverage - ExistingNotional(q);
  }

  /** A round that starts where the other size rules pass is approved as it is, or cut by the margin rule to exact steps. */
  lemma LaterRound(q: Proposal, c: Context, l: Limits, answer: PreflightAnswer, slack: LM.Slack) returns (k: int)
    requires OtherSizeRulesPass(q, c, l)
    requires ApplyModel(q, c.equity, l, slack).1.None? && answer.Ready?
    requires Assess(ApplyModel(q, c.equity, l, slack).0, WithPreflight(c, answer), l).verdict != Rejected
    ensures
      var (m, d) := (ApplyModel(q, c.equity, l, slack).0, WithPreflight(c, answer));
      var assessment := Assess(m, d, l);
      && OtherSizeRulesPass(m, d, l)
      && (assessment.adjustedSize.None? ==> assessment.verdict == Approved)
      && (assessment.adjustedSize.Some? ==>
            && RuleMarginBudget(m, d, l).Downsize?
            && IsOpen(q) && q.instrument.Perp?
            && Notional(Resized(m, assessment.adjustedSize.value)) == Budget(d, l) * (k as real * l.leverageStep))
  {
    hide ApplyModel, Assess, RuleMarginBudget, Budget, Notional, OtherSizeRulesPass, LM.CeilUnits;
    var m, d := ApplyModel(q, c.equity, l, slack).0, WithPreflight(c, answer);
    ModelOnlyShrinks(q, c.equity, l, slack);
    OtherSizeRulesKeepPassing(q, c, m, d, l);
    OnlyMarginActs(m, d, l);
    k := 0;
    if RuleMarginBudget(m, d, l).Downsize? {
      MarginRuleNeedsPerpetual(m, d, l);
      var minimum, j, budget := ModelFacts(q, c, l, slack);
      k := LM.CeilUnits(LM.Max(minimum, Notional(m) / budget), l.leverageStep, slack);
      MarginDownsizeIsExact(m, d, l, k);
    }
  }

  lemma MarginRuleNeedsPerpetual(p: Proposal, c: Context, l: Limits)
    requires RuleMarginBudget(p, c, l).Downsize?
    ensures IsOpen(p) && p.instrument.Perp?
  {
  }

  /** The third round is the last: it starts on exact steps, so nothing is left to cut. */
  lemma ThirdRoundSettles(q: Proposal, c: Context, l: Limits, preflight: nat -> PreflightAnswer, slack: LM.Slack,
                          reasons: seq<Rule>, k: int)
    requires OtherSizeRulesPass(q, c, l) && IsOpen(q) && q.instrument.Perp?
    requires Notional(q) == Budget(c, l) * (k as real * l.leverageStep)
    ensures Reassess(q, c, l, preflight, slack, 2, reasons).error != Some(DidNotConverge)
    ensures Reassess(q, c, l, preflight, slack, 2, reasons).rounds == 3
  {
    hide ApplyModel, Assess, RuleMarginBudget, Budget, Notional, OtherSizeRulesPass;
    var (m, error) := ApplyModel(q, c.equity, l, slack);
    if error.None? && preflight(2).Ready? {
      var d := WithPreflight(c, preflight(2));
      if Assess(m, d, l).verdict != Rejected {
        var _ := LaterRound(q, c, l, preflight(2), slack);
        ModelledMarginFits(q, c, d, l, slack, k);
      }
    }
  }

  /** The second round either settles or hands exact steps to the third; without slack it settles. */
  lemma SecondRound(
    q: Proposal, c: Context, l: Limits, preflight: nat -> PreflightAnswer, slack: LM.Slack, reasons: seq<Rule>)
    requires OtherSizeRulesPass(q, c, l)
    ensures Reassess(q, c, l, preflight, slack, 1, reasons).error != Some(DidNotConverge)
    ensures 2 <= Reassess(q, c, l, preflight, slack, 1, reasons).rounds <= 3
    ensures slack == 0.0 ==> Reassess(q, c, l, preflight, slack, 1, reasons).rounds == 2
  {
    hide ApplyModel, Assess, RuleMarginBudget, Budget, Notional, OtherSizeRulesPass;
    var (m, error) := ApplyModel(q, c.equity, l, slack);
    if error.None? && preflight(1).Ready? {
      var d := WithPreflight(c, preflight(1));
      var assessment := Assess(m, d, l);
      if assessment.verdict != Rejected {
        var k := LaterRound(q, c, l, preflight(1), slack);
        if slack == 0.0 && IsOpen(q) && q.instrument.Perp? {
          ModelledMarginFits(q, c, d, l, slack, 0);
        }
        if assessment.adjustedSize.Some? && assessment.adjustedSize.value < m.size {
          var cut := reasons + if m.size < q.size then [LeverageModelCut] else [];
          ModelOnlyShrinks(q, c.equity, l, slack);
          DownsizeSettlesOtherRules(m, d, l);
          ThirdRoundSettles(Resized(m, assessment.adjustedSize.value), d, l, preflight, slack,
                            cut + assessment.violations, k);
        }
      }
    }
  }

  /**
   Main result.  Whatever the preflight answers, the loop never reports that it did not converge: three rounds
   always settle, and in exact arithmetic two do.
   */
  lemma LoopConverges(p: Proposal, c: Context, l: Limits, preflight: nat -> PreflightAnswer, slack: LM.Slack)
    ensures Reassess(p, c, l, preflight, slack, 0, []).error != Some(DidNotConverge)
    ensures 1 <= Reassess(p, c, l, preflight, slack, 0, []).rounds <= 3
    ensures slack == 0.0 ==> Reassess(p, c, l, preflight, slack, 0, []).rounds <= 2
  {
    hide ApplyModel, Assess, OtherSizeRulesPass;
    var (m, error) := ApplyModel(p, c.equity, l, slack);
    if error.None? && preflight(0).Ready? {
      var d := WithPreflight(c, preflight(0));
      var assessment := Assess(m, d, l);
      if assessment.verdict != Rejected && assessment.adjustedSize.Some? && assessment.adjustedSize.value < m.size {
        var cut := [] + if m.size < p.size then [LeverageModelCut] else [];
        DownsizeSettlesOtherRules(m, d, l);
        SecondRound(Resized(m, assessment.adjustedSize.value), d, l, preflight, slack, cut + assessment.violations);
      }
    }
  }

  lemma SameTradeIsTransitive(p: Proposal, q: Proposal, r: Proposal)
    requires SameTrade(p, q) && SameTrade(q, r)
    ensures SameTrade(p, r)
  {
  }

  /** Main result.  The loop never enlarges an order, and never changes the trade. */
  lemma {:induction false} LoopOnlyShrinks(p: Proposal, c: Context, l: Limits, preflight: nat -> PreflightAnswer,
                                           slack: LM.Slack, attempt: nat, reasons: seq<Rule>)
    requires attempt <= 3
    ensures Reassess(p, c, l, preflight, slack, attempt, reasons).proposal.size <= p.size
    ensures SameTrade(p, Reassess(p, c, l, preflight, slack, attempt, reasons).proposal)
    decreases 3 - attempt
  {
    hide Assess, ApplyModel, WithPreflight;
    if attempt < 3 {
      var (m, error) := ApplyModel(p, c.equity, l, slack);
      ModelOnlyShrinks(p, c.equity, l, slack);
      if error.None? && preflight(attempt).Ready? {
        var d := WithPreflight(c, preflight(attempt));
        var assessment := Assess(m, d, l);
        if assessment.verdict != Rejected && assessment.adjustedSize.Some? && assessment.adjustedSize.value < m.size {
          var cut := reasons + if m.size < p.size then [LeverageModelCut] else [];
          var q := Resized(m, assessment.adjustedSize.value);
          LoopOnlyShrinks(q, d, l, preflight, slack, attempt + 1, cut + assessment.violations);
          var final := Reassess(q, d, l, preflight, slack, attempt + 1, cut + assessment.violations).proposal;
          assert SameTrade(m, q);
          SameTradeIsTransitive(p, m, q);
          SameTradeIsTransitive(p, q, final);
          hide SameTrade;
        }
      }
    }
  }

  /**
   A result that is not rejected is approved by the engine at exactly the returned size and leverage,
   under the last preflight, and is labelled downsized exactly when it is smaller than what was asked.
   */
  ghost predicate ApprovedAsReturned(run: Run, asked: real, c: Context, l: Limits, preflight: nat -> PreflightAnswer,
                                     attempt: nat, reasons: seq<Rule>)
  {
    && (run.error.None? <==> run.assessment.Some?)
    && (run.error.None? && run.assessment.value.verdict != Rejected ==>
          && attempt < run.rounds <= 3
          && preflight(run.rounds - 1).Ready?
          && run.context == c.(slippageBps := preflight(run.rounds - 1).slippageBps,
                               liquidationPrice := preflight(run.rounds - 1).liquidationPrice,
                               priceImpact := preflight(run.rounds - 1).priceImpact)
          && Assess(run.proposal, run.context, l) == Assessment(Approved, [], None)
          && ValidProposal(run.proposal)
          && run.assessment.value.adjustedSize.None?
          && (run.assessment.value.verdict == Downsized <==> reasons != [] || run.proposal.size < asked))
  }

  /** A later round's result is a result of this round when the size was cut in between. */
  lemma ResultCarriesOver(run: Run, asked: real, c: Context, l: Limits, preflight: nat -> PreflightAnswer, attempt: nat,
                          reasons: seq<Rule>, later: real, reasons': seq<Rule>)
    requires preflight(attempt).Ready?
    requires ApprovedAsReturned(run, later, WithPreflight(c, preflight(attempt)), l, preflight, attempt + 1, reasons')
    requires run.proposal.size <= later < asked && reasons' != []
    ensures ApprovedAsReturned(run, asked, c, l, preflight, attempt, reasons)
  {
    hide Assess, ValidProposal;
  }

  /** Main result.  Every result of the loop is approved as returned. */
  lemma {:induction false} LoopResult(p: Proposal, c: Context, l: Limits, preflight: nat -> PreflightAnswer, slack: LM.Slack,
                                      attempt: nat, reasons: seq<Rule>)
    requires attempt <= 3
    ensures ApprovedAsReturned(Reassess(p, c, l, preflight, slack, attempt, reasons), p.size, c, l, preflight, attempt, reasons)
    decreases 3 - attempt
  {
    hide Assess, ValidProposal;
    if attempt < 3 {
      var (m, error) := ApplyModel(p, c.equity, l, slack);
      assert error.None? ==> ValidProposal(m);
      assert m.size <= p.size by { ModelOnlyShrinks(p, c.equity, l, slack); }
      hide ApplyModel;
      if error.None? && preflight(attempt).Ready? {
        var d := WithPreflight(c, preflight(attempt));
        var assessment := Assess(m, d, l);
        if assessment.verdict != Rejected {
          AssessmentShape(m, d, l);
          if assessment.adjustedSize.Some? {
            var q := Resized(m, assessment.adjustedSize.value);
            hide ApprovedAsReturned, WithPreflight;
            var reasons' := reasons + (if m.size < p.size then [LeverageModelCut] else []) + assessment.violations;
            LoopResult(q, d, l, preflight, slack, attempt + 1, reasons');
            LoopOnlyShrinks(q, d, l, preflight, slack, attempt + 1, reasons');
            ResultCarriesOver(Reassess(q, d, l, preflight, slack, attempt + 1, reasons'), p.size, c, l, preflight,
                              attempt, reasons, q.size, reasons');
          }
        }
      }
    }
  }

  /**
   Main result.  A result without an error is what the model leaves of some order of the same trade that is
   not larger; a perpetual one keeps the volatility it was planned with.
   */
  lemma {:induction false} LoopIsModelled(p: Proposal, c: Context, l: Limits, preflight: nat -> PreflightAnswer,
                                          slack: LM.Slack, attempt: nat, reasons: seq<Rule>)
    requires attempt <= 3
    ensures var run := Reassess(p, c, l, preflight, slack, attempt, reasons);
      run.error.None? ==> exists q :: ModelOf(p, q, c.equity, l, slack, run.proposal)
    decreases 3 - attempt
  {
    hide Assess, ApplyModel, WithPreflight, Modelled;
    if attempt < 3 {
      var (m, error) := ApplyModel(p, c.equity, l, slack);
      ModelByFields(p, c.equity, l, slack);
      if error.None? {
        assert ModelOf(p, p, c.equity, l, slack, m);
        if preflight(attempt).Ready? {
          var d := WithPreflight(c, preflight(attempt));
          var assessment := Assess(m, d, l);
          if assessment.verdict != Rejected && assessment.adjustedSize.Some? && assessment.adjustedSize.value < m.size {
            var cut := reasons + if m.size < p.size then [LeverageModelCut] else [];
            var q := Resized(m, assessment.adjustedSize.value);
            LoopIsModelled(q, d, l, preflight, slack, attempt + 1, cut + assessment.violations);
            var run := Reassess(q, d, l, preflight, slack, attempt + 1, cut + assessment.violations);
            EquityStays(c, preflight(attempt));
            if run.error.None? {
              var r :| ModelOf(q, r, d.equity, l, slack, run.proposal);
              ModelOnlyShrinks(p, c.equity, l, slack);
              VolatilityStays(p, c.equity, l, slack);
              assert ModelOf(p, r, c.equity, l, slack, run.proposal);
            }
          }
        }
      }
    }
  }

  /** The model's input: an order of the same trade, not larger, with the volatility it was planned with. */
  ghost predicate ModelOf(p: Proposal, q: Proposal, equity: real, l: Limits, slack: LM.Slack, result: Proposal) {
    && SameTrade(p, q) && q.size <= p.size
    && ((p.side.Long? || p.side.Short?) && p.instrument.Perp? ==> PlannedVolatility(q) == PlannedVolatility(p))
    && Modelled(q, equity, l, slack, result, None)
  }

  lemma EquityStays(c: Context, answer: PreflightAnswer)
    requires answer.Ready?
    ensures WithPreflight(c, answer).equity == c.equity
  {
  }

  lemma VolatilityStays(p: Proposal, equity: real, l: Limits, slack: LM.Slack)
    ensures (p.side.Long? || p.side.Short?) && p.instrument.Perp? && ApplyModel(p, equity, l, slack).1.None? ==>
      PlannedVolatility(ApplyModel(p, equity, l, slack).0) == PlannedVolatility(p)
  {
    hide ValidProposal, EntryPrice, StopFraction, LM.InputError, LM.Finance, LM.StressBuffer;
  }

  lemma AssessmentShape(p: Proposal, c: Context, l: Limits)
    requires Assess(p, c, l).verdict != Rejected
    ensures Assess(p, c, l).adjustedSize.Some? ==>
              Assess(p, c, l).violations != [] && Assess(p, c, l).adjustedSize.value < p.size
    ensures Assess(p, c, l).adjustedSize.None? ==> Assess(p, c, l) == Assessment(Approved, [], None)
  {
    AdjustedSizeOf(p, c, l);
    hide AdjustedSize, Findings;
  }
}
