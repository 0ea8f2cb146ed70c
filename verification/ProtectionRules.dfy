/** When a venue's report counts as protection (internal/orchestrator/protection.go and service.go). */
module ProtectionRules {
  import opened OrderTypes
  import opened OrderMachine

  /** The strict venue is OKX; protectId is the client id its protective orders must carry. */
  datatype Rules = Rules(strict: bool, protectId: string -> string)

  predicate NeedsStop(intent: Intent) { intent.stopLoss.Some? && intent.stopLoss.value > 0.0 }

  predicate NeedsTake(intent: Intent) { intent.takeProfit != [] && intent.takeProfit[0] > 0.0 }

  /** intentExpectsProtection. */
  predicate ExpectsProtection(intent: Intent) { !intent.reduceOnly && (NeedsStop(intent) || NeedsTake(intent)) }

  /** executionOpenedPosition. */
  predicate OpenedPosition(execution: Execution) {
    execution.filledBase > 0.0 && (execution.status == Filled || execution.status == PartiallyFilled)
  }

  /** A reported order that can protect the filled amount at all. */
  predicate Protects(order: ProtectiveOrder, intent: Intent, filled: real, rules: Rules) {
    && order.triggerPrice > 0.0 && order.reduceOnly
    && (rules.strict ==>
        && order.clientId == rules.protectId(intent.clientId)
        && order.positionSide == intent.side
        && (order.fullClose || (order.sizeBase > 0.0 && order.sizeBase >= filled)))
  }

  predicate HasProtection(
    orders: seq<ProtectiveOrder>, kind: ProtectiveKind, price: real, intent: Intent, filled: real, rules: Rules)
  {
    exists i :: 0 <= i < |orders| && orders[i].kind == kind && orders[i].triggerPrice == price
      && Protects(orders[i], intent, filled, rules)
  }

  /** The intent's stop and its first target, as far as it has them, are each covered at their price. */
  predicate Satisfied(intent: Intent, filled: real, orders: seq<ProtectiveOrder>, rules: Rules) {
    && (NeedsStop(intent) ==> HasProtection(orders, StopLoss, intent.stopLoss.value, intent, filled, rules))
    && (NeedsTake(intent) ==> HasProtection(orders, TakeProfit, intent.takeProfit[0], intent, filled, rules))
  }

  /** protectionSatisfied, with its two flags. */
  method ProtectionSatisfied(intent: Intent, filled: real, orders: seq<ProtectiveOrder>, rules: Rules)
    returns (ok: bool)
    ensures ok == Satisfied(intent, filled, orders, rules)
    ensures ok <==> Covered(intent, filled, orders, rules)
  {
    SatisfiedIsCovered(intent, filled, orders, rules);
    hide Covered, Reports;
    var needStop, needTake := NeedsStop(intent), NeedsTake(intent);
    var hasStop, hasTake := false, false;
    var i := 0;
    while i < |orders|
      invariant 0 <= i <= |orders|
      invariant needStop ==> (hasStop <==> HasProtection(orders[..i], StopLoss, intent.stopLoss.value, intent, filled, rules))
      invariant needTake ==> (hasTake <==> HasProtection(orders[..i], TakeProfit, intent.takeProfit[0], intent, filled, rules))
    {
      var order := orders[i];
      if needStop {
        OneMore(orders, i, StopLoss, intent.stopLoss.value, intent, filled, rules);
      }
      if needTake {
        OneMore(orders, i, TakeProfit, intent.takeProfit[0], intent, filled, rules);
      }
      i := i + 1;
      if order.triggerPrice <= 0.0 || !order.reduceOnly {
        continue;
      }
      if rules.strict {
        if order.clientId != rules.protectId(intent.clientId) || order.positionSide != intent.side {
          continue;
        }
        if !order.fullClose && (order.sizeBase <= 0.0 || order.sizeBase < filled) {
          continue;
        }
      }
      match order.kind
      case StopLoss =>
        if !needStop || order.triggerPrice == intent.stopLoss.value {
          hasStop := true;
        }
      case TakeProfit =>
        if !needTake || order.triggerPrice == intent.takeProfit[0] {
          hasTake := true;
        }
      case OtherKind =>
    }
    assert orders[..i] == orders;
    return (!needStop || hasStop) && (!needTake || hasTake);
  }

  lemma OneMore(
    orders: seq<ProtectiveOrder>, i: nat, kind: ProtectiveKind, price: real, intent: Intent, filled: real, rules: Rules)
    requires i < |orders|
    ensures HasProtection(orders[..i + 1], kind, price, intent, filled, rules) <==>
      (HasProtection(orders[..i], kind, price, intent, filled, rules)
       || (orders[i].kind == kind && orders[i].triggerPrice == price && Protects(orders[i], intent, filled, rules)))
  {
    var more, less := orders[..i + 1], orders[..i];
    assert more == less + [orders[i]];
    if HasProtection(less, kind, price, intent, filled, rules) {
      var k :| 0 <= k < i && less[k].kind == kind && less[k].triggerPrice == price && Protects(less[k], intent, filled, rules);
      assert more[k] == less[k];
    }
    if HasProtection(more, kind, price, intent, filled, rules) {
      var k :| 0 <= k <= i && more[k].kind == kind && more[k].triggerPrice == price && Protects(more[k], intent, filled, rules);
      assert k < i ==> less[k] == more[k];
    }
    assert more[i] == orders[i];
  }

  /** The status recordExecution stores: the reported one if a submitted order can take it. */
  function LandingStatus(execution: Execution): Status {
    if CanTransition(Submitting, execution.status) then execution.status else Unknown
  }

  /** Where an order is after its execution was recorded. */
  function RecordedStatus(intent: Intent, execution: Execution, rules: Rules): Status {
    if !OpenedPosition(execution) then LandingStatus(execution)
    else if Satisfied(intent, execution.filledBase, execution.protectiveOrders, rules) then ProtectivePlaced
    else if ExpectsProtection(intent) then ProtectiveFailed
    else execution.status
  }

  /** A reduce-only order of this kind and price is reported, and on the strict venue it is the intent's own and covers the fill. */
  ghost predicate Reports(
    orders: seq<ProtectiveOrder>, kind: ProtectiveKind, price: real, intent: Intent, filled: real, rules: Rules)
  {
    exists i :: 0 <= i < |orders|
      && orders[i].kind == kind && orders[i].triggerPrice == price && price > 0.0 && orders[i].reduceOnly
      && (!rules.strict
          || (&& orders[i].clientId == rules.protectId(intent.clientId) && orders[i].positionSide == intent.side
              && (orders[i].fullClose || (orders[i].sizeBase > 0.0 && orders[i].sizeBase >= filled))))
  }

  /** Of the stop and the first target of an intent, each that is positive is reported at its price. */
  ghost predicate Covered(intent: Intent, filled: real, orders: seq<ProtectiveOrder>, rules: Rules) {
    && (intent.stopLoss.Some? && intent.stopLoss.value > 0.0 ==>
        Reports(orders, StopLoss, intent.stopLoss.value, intent, filled, rules))
    && (intent.takeProfit != [] && intent.takeProfit[0] > 0.0 ==>
        Reports(orders, TakeProfit, intent.takeProfit[0], intent, filled, rules))
  }

  /**
   Where a submitted order ends, in the fields of the report. Without a position it takes the reported
   status if it is one that can follow a submission, else unknown. With one it is protected if what was
   asked for is covered, protective_failed if not, and otherwise, if it only reduces, as reported.
   */
  ghost predicate RecordedAs(status: Status, intent: Intent, execution: Execution, rules: Rules) {
    var position := execution.filledBase > 0.0 && (execution.status == Filled || execution.status == PartiallyFilled);
    if !position then
      status == if execution.status in {Acknowledged, PartiallyFilled, Filled, Canceled, Rejected, Failed, Unknown}
                then execution.status else Unknown
    else if Covered(intent, execution.filledBase, execution.protectiveOrders, rules) then status == ProtectivePlaced
    else if !intent.reduceOnly then status == ProtectiveFailed
    else status == execution.status
  }

  lemma ReportsAreProtection(
    orders: seq<ProtectiveOrder>, kind: ProtectiveKind, price: real, intent: Intent, filled: real, rules: Rules)
    ensures HasProtection(orders, kind, price, intent, filled, rules) <==> Reports(orders, kind, price, intent, filled, rules)
  {
    if HasProtection(orders, kind, price, intent, filled, rules) {
      var i :| 0 <= i < |orders| && orders[i].kind == kind && orders[i].triggerPrice == price
        && Protects(orders[i], intent, filled, rules);
    }
    if Reports(orders, kind, price, intent, filled, rules) {
      var i :| 0 <= i < |orders| && orders[i].kind == kind && orders[i].triggerPrice == price && orders[i].reduceOnly
        && (!rules.strict
            || (&& orders[i].clientId == rules.protectId(intent.clientId) && orders[i].positionSide == intent.side
                && (orders[i].fullClose || (orders[i].sizeBase > 0.0 && orders[i].sizeBase >= filled))));
      assert Protects(orders[i], intent, filled, rules);
    }
  }

  lemma SatisfiedIsCovered(intent: Intent, filled: real, orders: seq<ProtectiveOrder>, rules: Rules)
    ensures Satisfied(intent, filled, orders, rules) <==> Covered(intent, filled, orders, rules)
  {
    hide Reports, HasProtection;
    if intent.stopLoss.Some? {
      ReportsAreProtection(orders, StopLoss, intent.stopLoss.value, intent, filled, rules);
    }
    if intent.takeProfit != [] {
      ReportsAreProtection(orders, TakeProfit, intent.takeProfit[0], intent, filled, rules);
    }
  }

  /** The recorded status is the one that the fields of the report determine. */
  lemma RecordedAsReported(intent: Intent, execution: Execution, rules: Rules, status: Status)
    ensures status == RecordedStatus(intent, execution, rules) <==> RecordedAs(status, intent, execution, rules)
  {
    hide Reports, HasProtection;
    SatisfiedIsCovered(intent, execution.filledBase, execution.protectiveOrders, rules);
  }

  /**
   An entry that opened a position and asked for protection ends protected exactly if the report
   satisfies it, and else in remediation; nothing else ever ends in one of the two statuses.
   */
  lemma ProtectionFailsClosed(intent: Intent, execution: Execution, rules: Rules)
    ensures var status := RecordedStatus(intent, execution, rules);
      && (status == ProtectivePlaced <==>
          (OpenedPosition(execution) && Satisfied(intent, execution.filledBase, execution.protectiveOrders, rules)))
      && (status == ProtectiveFailed <==>
          (OpenedPosition(execution) && ExpectsProtection(intent)
           && !Satisfied(intent, execution.filledBase, execution.protectiveOrders, rules)))
      && (OpenedPosition(execution) && ExpectsProtection(intent) ==> status == ProtectivePlaced || status == ProtectiveFailed)
      && LegalTransition(Submitting, LandingStatus(execution))
      && (OpenedPosition(execution) ==> status == execution.status || LegalTransition(execution.status, status))
  {
    assert !OpenedPosition(execution) ==> LandingStatus(execution) in Transitions(Submitting);
  }

  /** A report that protects a larger fill protects a smaller one. */
  lemma SmallerFillStaysProtected(intent: Intent, less: real, more: real, orders: seq<ProtectiveOrder>, rules: Rules)
    requires less <= more && Satisfied(intent, more, orders, rules)
    ensures Satisfied(intent, less, orders, rules)
  {
    if NeedsStop(intent) {
      var i :| 0 <= i < |orders| && orders[i].kind == StopLoss && orders[i].triggerPrice == intent.stopLoss.value
        && Protects(orders[i], intent, more, rules);
      assert Protects(orders[i], intent, less, rules);
    }
    if NeedsTake(intent) {
      var i :| 0 <= i < |orders| && orders[i].kind == TakeProfit && orders[i].triggerPrice == intent.takeProfit[0]
        && Protects(orders[i], intent, more, rules);
      assert Protects(orders[i], intent, less, rules);
    }
  }

  /** The states of an OKX order detail, and the status a lookup reports for it. */
  datatype OkxState = OkxFilled | OkxPartiallyFilled | OkxCanceled | OkxOther

  function OkxStatus(state: OkxState, filledBase: real): Status {
    match state
    case OkxFilled => Filled
    case OkxPartiallyFilled => PartiallyFilled
    case OkxCanceled => if filledBase > 0.0 then PartiallyFilled else Canceled
    case OkxOther => Acknowledged
  }

  /** A canceled order that took a fill is reported as partially filled, never as canceled. */
  lemma OkxFillsAreNotCanceled(state: OkxState, filledBase: real)
    ensures OkxStatus(state, filledBase) == Canceled <==> state == OkxCanceled && filledBase <= 0.0
    ensures OkxStatus(state, filledBase) == PartiallyFilled <==>
      state == OkxPartiallyFilled || (state == OkxCanceled && filledBase > 0.0)
    ensures OkxStatus(state, filledBase) == Filled <==> state == OkxFilled
    ensures OkxStatus(state, filledBase) == Acknowledged <==> state == OkxOther
  {
  }
}
