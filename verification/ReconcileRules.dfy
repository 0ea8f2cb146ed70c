/**
 What a reconciliation of the journal with the venue may conclude (internal/orchestrator/order_reconcile.go):
 which changes are justified, and when the event of a change repeats one that was applied before.
 */
module ReconcileRules {
  import opened Wrappers
  import opened OrderTypes
  import opened OrderMachine
  import opened OrderLog
  import opened OrderMoves
  import opened OrderService

  datatype Discrepancy =
    | CleanupFailed | StillOpen(status: Status) | NoLookup | LookupError | RemoteMissing
    | StillRemote(status: Status) | Irreconcilable(from: Status, to: Status)

  function StatusText(status: Status): string {
    match status
    case New => "new"
    case Preflight => "preflight"
    case Submitting => "submitting"
    case Acknowledged => "acknowledged"
    case PartiallyFilled => "partially_filled"
    case Filled => "filled"
    case ProtectivePlaced => "protective_placed"
    case Closed => "closed"
    case Canceled => "canceled"
    case Rejected => "rejected"
    case Failed => "failed"
    case Unknown => "unknown"
    case ProtectiveFailed => "protective_failed"
    case Flattening => "flattening"
  }

  /** The event of one reconciliation step. */
  function ReconcileId(client: string, status: Status): string { "reconcile:" + client + ":" + StatusText(status) }

  lemma StatusTextHasNoColon(status: Status)
    ensures ':' !in StatusText(status) && StatusText(status) != ""
  {
  }

  lemma StatusTextIsInjective(s: Status, t: Status)
    requires StatusText(s) == StatusText(t)
    ensures s == t
  {
    assert StatusText(s)[1] == StatusText(t)[1];
    if |StatusText(s)| == 17 {
      assert StatusText(s)[11] == StatusText(t)[11];
    }
  }

  /** Client ids may hold colons; statuses do not, so the last colon splits the id. */
  lemma ReconcileIdIsInjective(c: string, s: Status, d: string, t: Status)
    requires ReconcileId(c, s) == ReconcileId(d, t)
    ensures c == d && s == t
  {
    var a, b := StatusText(s), StatusText(t);
    StatusTextHasNoColon(s);
    StatusTextHasNoColon(t);
    hide StatusText;
    LastColonSplits("reconcile:" + c, a, "reconcile:" + d, b);
    assert ("reconcile:" + c)[10..] == c && ("reconcile:" + d)[10..] == d;
    StatusTextIsInjective(s, t);
  }

  lemma LastColonSplits(x: string, a: string, y: string, b: string)
    requires x + ":" + a == y + ":" + b && ':' !in a && ':' !in b
    ensures x == y && a == b
  {
    var all := x + ":" + a;
    assert all[|x|] == ':' && all[|y|] == ':';
    assert forall i :: |x| < i < |all| ==> all[i] == a[i - |x| - 1];
    assert forall i :: |y| < i < |all| ==> all[i] == b[i - |y| - 1];
    assert |x| == |y|;
    assert all[..|x|] == x && all[|x| + 1..] == a;
    assert (y + ":" + b)[..|y|] == y && (y + ":" + b)[|y| + 1..] == b;
  }

  // ---- what justifies a change ----

  /** Statuses of an order that took a position. */
  predicate HasFill(status: Status) {
    status == Filled || status == ProtectivePlaced || status == ProtectiveFailed || status == Flattening
  }

  /** Statuses whose outcome only the venue knows. */
  predicate LooksUp(status: Status) {
    status == Preflight || status == Submitting || status == Acknowledged || status == PartiallyFilled || status == Unknown
  }

  predicate Settled(status: Status) { IsTerminal(status) || status == ProtectivePlaced || status == ProtectiveFailed }

  predicate Unsettling(status: Status) { status == Submitting || status == Unknown || status == Flattening }

  function ProtectionOf(execution: Execution): Status {
    if execution.protectiveOrders != [] then ProtectivePlaced else ProtectiveFailed
  }

  predicate Reported(order: Order, venue: Venue) {
    LooksUp(order.status) && venue.canLookup && venue.lookup(order.client).Found?
  }

  /** The new status is the old one, or the venue's answer or the stored result accounts for it. */
  predicate Justified(order: Order, hasPosition: bool, venue: Venue, status: Status) {
    || status == order.status
    || (Reported(order, venue)
        && var report := venue.lookup(order.client).execution;
           status == report.status || (report.status == Filled && status == ProtectionOf(report)))
    || (status == Closed && HasFill(order.status) && !hasPosition && venue.clears(order.client))
    || (status == Canceled
        && (order.status == New
            || (LooksUp(order.status) && venue.canLookup && venue.isPaper && venue.lookup(order.client) == NotFound)))
    || (order.status == Filled && hasPosition && status == RestoredStatus(order))
  }

  /** The venue itself reported the order as still open in a way that is not a discrepancy. */
  predicate ReportedOpen(order: Order, venue: Venue) {
    Reported(order, venue) && Unsettling(venue.lookup(order.client).execution.status)
  }

  function RestoredStatus(order: Order): Status {
    if order.result.Some? then ProtectionOf(order.result.value) else ProtectiveFailed
  }

  // ---- events that repeat applied ones ----

  /** A reconciliation event; its time plays no part in what is a repetition. */
  function ReconcileEvent(client: string, status: Status, result: Option<Execution>, note: string): Event {
    Event(ReconcileId(client, status), client, 0, status, None, result, note)
  }

  const FLAT_NOTE := "venue position is flat"
  const RESTORED_NOTE := "restored filled order lifecycle"
  const STOPPED_NOTE := "process stopped before submission"
  const ABSENT_NOTE := "paper venue confirms order absent"
  const LOOKUP_NOTE := "authoritative venue lookup"
  const PROTECTION_NOTE := "restored protection lifecycle"

  /** Why a lookup cannot be applied. */
  function RemoteDiscrepancy(order: Order, venue: Venue): Option<Discrepancy> {
    if !venue.canLookup then Some(NoLookup)
    else match venue.lookup(order.client)
      case LookupFailed => Some(LookupError)
      case NotFound => if venue.isPaper then None else Some(RemoteMissing)
      case Found(report) =>
        if report.status == order.status then Some(StillRemote(report.status))
        else if !CanTransition(order.status, report.status) then Some(Irreconcilable(order.status, report.status))
        else None
  }

  /** The event that would settle the order, if one is due. */
  function SettlingEvent(order: Order, hasPosition: bool, venue: Venue): Option<Event> {
    var client := order.client;
    if IsTerminal(order.status) then None
    else if HasFill(order.status) then
      if !hasPosition then
        if venue.clears(client) then Some(ReconcileEvent(client, Closed, order.result, FLAT_NOTE)) else None
      else if order.status == Filled then Some(ReconcileEvent(client, RestoredStatus(order), None, RESTORED_NOTE))
      else None
    else if order.status == New then Some(ReconcileEvent(client, Canceled, None, STOPPED_NOTE))
    else if RemoteDiscrepancy(order, venue).Some? then None
    else match venue.lookup(client)
      case Found(report) =>
        if report.status == Filled then Some(ReconcileEvent(client, ProtectionOf(report), None, PROTECTION_NOTE))
        else if Settled(report.status) then Some(ReconcileEvent(client, report.status, Some(report), LOOKUP_NOTE))
        else None
      case _ => Some(ReconcileEvent(client, Canceled, None, ABSENT_NOTE))
  }

  /** The settling event was applied before, so the journal takes it for a retry and changes nothing. */
  predicate Repeats(v: View, order: Order, hasPosition: bool, venue: Venue) {
    var event := SettlingEvent(order, hasPosition, venue);
    event.Some? && Retried(v, event.value)
  }

  /**
   Every change is justified, and a return without discrepancy and error leaves the order settled, or
   reported as open, exactly if its settling event is not a repetition.
   */
  ghost predicate Reconciled(
    v: View, w: View, order: Order, hasPosition: bool, venue: Venue, discrepancy: Option<Discrepancy>,
    error: Option<ServiceError>)
  {
    && order.client in w.orders
    && Done(v, order, w.orders[order.client].status, hasPosition, venue, discrepancy.None? && error.None?)
    && (error.None? ==> Explained(order, w.orders[order.client], hasPosition, venue, discrepancy))
  }

  ghost predicate Done(v: View, order: Order, status: Status, hasPosition: bool, venue: Venue, clean: bool) {
    && Justified(order, hasPosition, venue, status)
    && (clean ==> (Settled(status) || ReportedOpen(order, venue) <==> !Repeats(v, order, hasPosition, venue)))
  }

  // ---- what becomes of an order, status by status ----

  /** The order was not lost, and is not reported in a status that it had before. */
  ghost predicate NothingComesBack(order: Order, venue: Venue) {
    && NeverLost(Statuses(order.events))
    && (venue.lookup(order.client).Found? ==>
        var reported := venue.lookup(order.client).execution.status;
        reported == order.status || reported !in Statuses(order.events))
  }

  /** The order's new status, its result, and the discrepancy that is reported for it. */
  predicate Expected(
    order: Order, status: Status, result: Option<Execution>, hasPosition: bool, venue: Venue, discrepancy: Option<Discrepancy>)
  {
    match order.status
    case Closed => status == Closed && result == order.result && discrepancy == None
    case Canceled => status == Canceled && result == order.result && discrepancy == None
    case Rejected => status == Rejected && result == order.result && discrepancy == None
    case Failed => status == Failed && result == order.result && discrepancy == None
    case New => status == Canceled && result == order.result && discrepancy == None
    case Filled =>
      && result == order.result
      && if hasPosition then
           && discrepancy == None
           && status == if order.result.Some? && order.result.value.protectiveOrders != [] then ProtectivePlaced else ProtectiveFailed
         else ExpectedFlat(order, status, venue, discrepancy)
    case ProtectivePlaced =>
      && result == order.result
      && if hasPosition then status == ProtectivePlaced && discrepancy == None
         else ExpectedFlat(order, status, venue, discrepancy)
    case ProtectiveFailed =>
      && result == order.result
      && if hasPosition then status == ProtectiveFailed && discrepancy == Some(StillOpen(ProtectiveFailed))
         else ExpectedFlat(order, status, venue, discrepancy)
    case Flattening =>
      && result == order.result
      && if hasPosition then status == Flattening && discrepancy == Some(StillOpen(Flattening))
         else ExpectedFlat(order, status, venue, discrepancy)
    case _ =>
      if !venue.canLookup then status == order.status && result == order.result && discrepancy == Some(NoLookup)
      else match venue.lookup(order.client)
        case LookupFailed => status == order.status && result == order.result && discrepancy == Some(LookupError)
        case NotFound =>
          && result == order.result
          && if venue.isPaper then status == Canceled && discrepancy == None
             else status == order.status && discrepancy == Some(RemoteMissing)
        case Found(report) => ExpectedReport(order, report, status, result, discrepancy)
  }

  /** Without a position: closed once the protection is cleared. */
  predicate ExpectedFlat(order: Order, status: Status, venue: Venue, discrepancy: Option<Discrepancy>) {
    if venue.clears(order.client) then status == Closed && discrepancy == None
    else status == order.status && discrepancy == Some(CleanupFailed)
  }

  /** The venue's report is taken over if the status table allows it; a fill goes on to its protection. */
  predicate ExpectedReport(
    order: Order, report: Execution, status: Status, result: Option<Execution>, discrepancy: Option<Discrepancy>)
  {
    if report.status == order.status then
      status == order.status && result == order.result && discrepancy == Some(StillRemote(order.status))
    else if !CanTransition(order.status, report.status) then
      status == order.status && result == order.result && discrepancy == Some(Irreconcilable(order.status, report.status))
    else
      && result == Some(report)
      && match report.status
         case Filled =>
           discrepancy == None && status == if report.protectiveOrders != [] then ProtectivePlaced else ProtectiveFailed
         case Acknowledged => status == Acknowledged && discrepancy == Some(StillRemote(Acknowledged))
         case PartiallyFilled => status == PartiallyFilled && discrepancy == Some(StillRemote(PartiallyFilled))
         case other => status == other && discrepancy == None
  }

  /** An order without a position is closed in any case, and any other one becomes what is expected unless a status comes back. */
  predicate ClosesFlat(order: Order, hasPosition: bool, venue: Venue) {
    HasFill(order.status) && !hasPosition && venue.clears(order.client)
  }

  ghost predicate Explained(
    order: Order, after: Order, hasPosition: bool, venue: Venue, discrepancy: Option<Discrepancy>)
  {
    && (NothingComesBack(order, venue) ==> Expected(order, after.status, after.result, hasPosition, venue, discrepancy))
    && (ClosesFlat(order, hasPosition, venue) ==> after.status == Closed && discrepancy == None)
  }

  // ---- orders that were never lost ----

  /** No flattening order of the history became unknown again. */
  ghost predicate NeverLost(history: seq<Status>) {
    forall i :: 0 < i < |history| && history[i - 1] == Flattening ==> history[i] != Unknown
  }

  /** After a fill an order that is never lost only advances. */
  lemma {:induction false} FillOnlyAdvances(history: seq<Status>, i: nat)
    requires LegalHistory(history) && NeverLost(history)
    requires i < |history| - 1 && HasFill(history[i])
    ensures Stage(history[|history| - 1]) > Stage(history[i])
  {
    var n := |history| - 1;
    assert LegalTransition(history[n - 1], history[n]);
    if i < n - 1 {
      FillOnlyAdvances(history[..n], i);
    }
  }

  /** A status that is still ahead: a terminal one of an open order, or a later stage of a fill. */
  predicate Ahead(order: Order, status: Status) {
    if IsTerminal(status) then !IsTerminal(order.status) else HasFill(status) && Stage(order.status) < Stage(status)
  }

  lemma AheadIsNew(v: View, order: Order, status: Status)
    requires CoherentOrder(order, order.client, v.applied)
    requires Ahead(order, status) && (IsTerminal(status) || NeverLost(Statuses(order.events)))
    ensures status !in Statuses(order.events)
  {
    var history := Statuses(order.events);
    assert history[|history| - 1] == order.status;
    forall i | 0 <= i < |history| ensures history[i] != status {
      HistoryShape(history, i);
      if history[i] == status && !IsTerminal(status) && i < |history| - 1 {
        FillOnlyAdvances(history, i);
      }
    }
  }

  /** An event repeats an applied one only if its status is in its order's history. */
  lemma RepeatsHistory(v: View, order: Order, event: Event)
    requires Coherent(v) && order.client in v.orders && v.orders[order.client] == order
    requires event.client == order.client && Retried(v, event)
    ensures event.status in Statuses(order.events)
  {
    var applied := v.applied[event.id];
    assert applied in v.orders[applied.client].events;
    var i :| 0 <= i < |order.events| && order.events[i] == applied;
    assert Statuses(order.events)[i] == event.status;
  }

  lemma SettlingIsAhead(order: Order, hasPosition: bool, venue: Venue)
    requires SettlingEvent(order, hasPosition, venue).Some?
    ensures var event := SettlingEvent(order, hasPosition, venue).value;
      event.client == order.client && Ahead(order, event.status)
  {
  }

  lemma CoherentAt(v: View, order: Order)
    requires Coherent(v) && order.client in v.orders && v.orders[order.client] == order
    ensures CoherentOrder(order, order.client, v.applied)
  {
  }

  /** The settling event of an order that was never lost is not a repetition; a terminal one never is. */
  lemma NeverLostIsNotRepeated(v: View, order: Order, hasPosition: bool, venue: Venue)
    requires Coherent(v) && order.client in v.orders && v.orders[order.client] == order
    ensures Repeats(v, order, hasPosition, venue) ==>
      && !NeverLost(Statuses(order.events))
      && !IsTerminal(SettlingEvent(order, hasPosition, venue).value.status)
  {
    hide SettlingEvent, Retried, Coherent, CoherentOrder, Ahead, NeverLost;
    if Repeats(v, order, hasPosition, venue) {
      var event := SettlingEvent(order, hasPosition, venue).value;
      SettlingIsAhead(order, hasPosition, venue);
      RepeatsHistory(v, order, event);
      CoherentAt(v, order);
      if IsTerminal(event.status) || NeverLost(Statuses(order.events)) {
        AheadIsNew(v, order, event.status);
      }
    }
  }

  /** Where no status comes back no event is taken for a retry, and a terminal one is in no case. */
  lemma NewIsNotRetried(
    v: View, order: Order, venue: Venue, status: Status, result: Option<Execution>, note: string)
    requires Coherent(v) && order.client in v.orders && v.orders[order.client] == order
    requires Ahead(order, status) || (venue.lookup(order.client).Found? && venue.lookup(order.client).execution.status == status
                                      && status != order.status)
    ensures NothingComesBack(order, venue) || (IsTerminal(status) && !IsTerminal(order.status)) ==>
      !Retried(v, ReconcileEvent(order.client, status, result, note))
  {
    hide Coherent, CoherentOrder, Retried, Ahead, NeverLost;
    var event := ReconcileEvent(order.client, status, result, note);
    if Retried(v, event) {
      RepeatsHistory(v, order, event);
      CoherentAt(v, order);
      TerminalIsAhead(order, status);
      if Ahead(order, status) && (IsTerminal(status) || NeverLost(Statuses(order.events))) {
        AheadIsNew(v, order, status);
      }
    }
  }

  lemma TerminalIsAhead(order: Order, status: Status)
    ensures IsTerminal(status) && !IsTerminal(order.status) ==> Ahead(order, status)
  {
  }

  // ---- the ids of an order's reconciliation ----

  /** Only this order's reconciliation has used its reconciliation ids. */
  ghost predicate OwnIds(v: View, client: string) {
    forall s :: ReconcileId(client, s) in v.applied ==>
      v.applied[ReconcileId(client, s)].client == client && v.applied[ReconcileId(client, s)].status == s
  }

  ghost predicate KeepsOwnIds(v: View, w: View) { forall c :: OwnIds(v, c) ==> OwnIds(w, c) }

  /** Only reconciliation events of this order were applied. */
  ghost predicate AppliesFor(v: View, w: View, client: string) {
    && (forall id :: id in v.applied ==> id in w.applied && w.applied[id] == v.applied[id])
    && (forall id :: id in w.applied && id !in v.applied ==>
        exists s :: id == ReconcileId(client, s) && w.applied[id].client == client && w.applied[id].status == s)
  }

  /** The journal knows the same reconciliation events of this order. */
  ghost predicate SameIds(v: View, w: View, client: string) {
    forall s :: var id := ReconcileId(client, s);
      (id in w.applied <==> id in v.applied) && (id in v.applied ==> w.applied[id] == v.applied[id])
  }

  lemma AppliesKeepsIds(v: View, w: View, client: string)
    requires AppliesFor(v, w, client)
    ensures KeepsOwnIds(v, w)
    ensures forall d :: d != client ==> SameIds(v, w, d)
  {
    hide ReconcileId;
    forall d, s | ReconcileId(d, s) in w.applied && ReconcileId(d, s) !in v.applied
      ensures d == client && w.applied[ReconcileId(d, s)].client == client && w.applied[ReconcileId(d, s)].status == s
    {
      var t :| ReconcileId(d, s) == ReconcileId(client, t) && w.applied[ReconcileId(d, s)].client == client
        && w.applied[ReconcileId(d, s)].status == t;
      ReconcileIdIsInjective(d, s, client, t);
    }
  }

  /** Nothing stands in the way of this order's events: its ids are its own, and no status has to come back. */
  ghost predicate Unhindered(v: View, order: Order, venue: Venue) {
    && OwnIds(v, order.client) && NeverLost(Statuses(order.events))
    && (Reported(order, venue) && RemoteDiscrepancy(order, venue).None? ==>
        venue.lookup(order.client).execution.status !in Statuses(order.events))
  }

  lemma UsedIdIsInHistory(v: View, order: Order, status: Status)
    requires Coherent(v) && OwnIds(v, order.client)
    requires order.client in v.orders && v.orders[order.client] == order
    ensures ReconcileId(order.client, status) in v.applied ==> status in Statuses(order.events)
  {
    hide ReconcileId;
    var id := ReconcileId(order.client, status);
    if id in v.applied {
      assert v.applied[id] in order.events;
      var i :| 0 <= i < |order.events| && order.events[i] == v.applied[id];
      assert Statuses(order.events)[i] == status;
    }
  }

  lemma MoveIsReady(v: View, order: Order, venue: Venue, status: Status)
    requires Coherent(v) && order.client != "" && order.client in v.orders && v.orders[order.client] == order
    requires Unhindered(v, order, venue) && LegalTransition(order.status, status)
    requires Ahead(order, status)
      || (Reported(order, venue) && RemoteDiscrepancy(order, venue).None? && venue.lookup(order.client).execution.status == status)
    ensures Ready(v, ReconcileId(order.client, status), order.client, status)
  {
    hide Coherent, OwnIds, NeverLost, Ahead, RemoteDiscrepancy, Reported;
    CoherentAt(v, order);
    if Ahead(order, status) {
      AheadIsNew(v, order, status);
    }
    UsedIdIsInHistory(v, order, status);
  }

  lemma SecondMoveIsReady(v: View, w: View, order: Order, venue: Venue, result: Option<Execution>, next: Status)
    requires Coherent(v) && order.client != "" && order.client in v.orders && v.orders[order.client] == order
    requires Unhindered(v, order, venue) && Ahead(order, next)
    requires next == ProtectivePlaced || next == ProtectiveFailed
    requires Applies(v, w, ReconcileId(order.client, Filled), order.client, Filled)
    requires Moved(v, w, order.client, Filled, result)
    ensures Ready(w, ReconcileId(order.client, next), order.client, next)
  {
    hide Coherent, OwnIds, NeverLost, Ahead, RemoteDiscrepancy, Reported, ReconcileId;
    CoherentAt(v, order);
    AheadIsNew(v, order, next);
    UsedIdIsInHistory(v, order, next);
    if ReconcileId(order.client, Filled) == ReconcileId(order.client, next) {
      ReconcileIdIsInjective(order.client, Filled, order.client, next);
    }
    NamedId(order.client, next);
  }

  lemma NamedId(client: string, status: Status)
    ensures ReconcileId(client, status) != ""
  {
  }

  // ---- a lost order whose settling event repeats ----

  /** Filled and protected by a reconciliation, flattened, and then unknown again. */
  function LostHistory(client: string, intent: Intent, report: Execution): seq<Event> {
    [Event("open", client, 0, New, Some(intent), None, ""),
     Event("submit", client, 0, Submitting, None, None, ""),
     Event("fail", client, 0, Unknown, None, None, ""),
     ReconcileEvent(client, Filled, Some(report), LOOKUP_NOTE),
     ReconcileEvent(client, ProtectionOf(report), None, PROTECTION_NOTE),
     Event("flattening", client, 0, Flattening, None, None, ""),
     Event("lost", client, 0, Unknown, None, None, "")]
  }

  /** Every legal history of one order is one that a log can replay to. */
  lemma {:induction false} LifeReplays(log: seq<Event>, client: string)
    requires log != [] && client != "" && log[0].intent.Some?
    requires DistinctIds(log) && forall i :: 0 <= i < |log| ==> log[i].id != "" && log[i].client == client
    requires LegalHistory(Statuses(log))
    ensures Replay(log).Ok?
    ensures var v := Replay(log).value;
      && client in v.orders && v.orders[client].client == client
      && v.orders[client].status == log[|log| - 1].status
      && forall i :: 0 <= i < |log| ==> log[i].id in v.applied && v.applied[log[i].id] == log[i]
  {
    hide Replay, Materialize, Refusal, LegalTransition;
    var n := |log| - 1;
    var init := log[..n];
    assert log == init + [log[n]];
    assert Statuses(log)[n] == log[n].status;
    if n == 0 {
      FirstReplays(log[0]);
    } else {
      assert Statuses(init) == Statuses(log)[..n];
      LifeReplays(init, client);
      ReplayAppliesLog(init);
      assert Statuses(log)[n - 1] == init[n - 1].status;
      OneMoreReplays(init, log[n]);
    }
  }

  lemma FirstReplays(event: Event)
    requires event.id != "" && event.client != "" && event.status == New && event.intent.Some?
    ensures Replay([] + [event]) == Ok(View(map[event.client := Opened(event)], map[event.id := event]))
  {
    assert ([] + [event])[..0] == [];
  }

  lemma OneMoreReplays(init: seq<Event>, event: Event)
    requires Replay(init).Ok? && event.id != "" && event.client != "" && event.id !in Replay(init).value.applied
    requires event.client in Replay(init).value.orders
    requires LegalTransition(Replay(init).value.orders[event.client].status, event.status)
    ensures Replay(init + [event]).Ok?
    ensures var v, w := Replay(init).value, Replay(init + [event]).value;
      && event.client in w.orders && w.orders[event.client].client == v.orders[event.client].client
      && w.orders[event.client].status == event.status
      && w.applied == v.applied[event.id := event]
  {
    hide Replay;
    ReplayExtends(init, event);
  }

  /**
   The exception is real: a journal replays to an unknown order for which the venue reports a fill, and
   both events that would follow it are repetitions. Its history has the flattening order that was lost.
   */
  lemma LostOrderRepeats(client: string, intent: Intent, report: Execution, venue: Venue, hasPosition: bool)
    requires client != "" && report.status == Filled
    requires venue.canLookup && venue.lookup(client) == Found(report)
    ensures var log := LostHistory(client, intent, report);
      && Replay(log).Ok? && client in Replay(log).value.orders
      && var v := Replay(log).value;
         && v.orders[client].client == client && v.orders[client].status == Unknown
         && RemoteDiscrepancy(v.orders[client], venue).None? && !ReportedOpen(v.orders[client], venue)
         && Retried(v, ReconcileEvent(client, Filled, Some(report), LOOKUP_NOTE))
         && Repeats(v, v.orders[client], hasPosition, venue)
  {
    hide ReconcileId, Replay, DistinctIds, LegalHistory, Statuses;
    var log := LostHistory(client, intent, report);
    LostHistoryIsLegal(client, intent, report);
    LifeReplays(log, client);
    var v := Replay(log).value;
    assert v.applied[log[3].id] == log[3] && v.applied[log[4].id] == log[4] && v.orders[client].status == log[6].status;
  }

  lemma LostHistoryIsLegal(client: string, intent: Intent, report: Execution)
    requires client != ""
    ensures var log := LostHistory(client, intent, report);
      && DistinctIds(log) && LegalHistory(Statuses(log))
      && forall i :: 0 <= i < |log| ==> log[i].id != "" && log[i].client == client
  {
    hide ReconcileId, Replay, LegalHistory;
    var log := LostHistory(client, intent, report);
    LostIdsDiffer(client, ProtectionOf(report));
    LostStatusesAreLegal(ProtectionOf(report));
    assert Statuses(log) == [New, Submitting, Unknown, Filled, ProtectionOf(report), Flattening, Unknown];
    assert ReconcileId(client, Filled) !in {"", "open", "submit", "fail", "flattening", "lost"};
    assert ReconcileId(client, ProtectionOf(report)) !in {"", "open", "submit", "fail", "flattening", "lost"};
  }

  lemma LostStatusesAreLegal(next: Status)
    requires next == ProtectivePlaced || next == ProtectiveFailed
    ensures LegalHistory([New, Submitting, Unknown, Filled, next, Flattening, Unknown])
  {
  }

  lemma LostIdsDiffer(client: string, next: Status)
    requires next == ProtectivePlaced || next == ProtectiveFailed
    ensures ReconcileId(client, Filled) != ReconcileId(client, next)
    ensures forall s :: ReconcileId(client, s) !in {"", "open", "submit", "fail", "flattening", "lost"}
  {
    if ReconcileId(client, Filled) == ReconcileId(client, next) {
      ReconcileIdIsInjective(client, Filled, client, next);
    }
    forall s ensures ReconcileId(client, s) !in {"", "open", "submit", "fail", "flattening", "lost"} {
      assert ReconcileId(client, s)[0] == 'r';
    }
  }
}
