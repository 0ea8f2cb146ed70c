/**
 Reconciliation of the journal with the venue (internal/orchestrator/order_reconcile.go): no order is
 submitted, and every change is justified by what the venue or the stored order shows.
 */
module OrderReconcile {
  import opened Wrappers
  import opened OrderTypes
  import opened OrderMachine
  import opened OrderLog
  import opened OrderMoves
  import opened OrderService
  import opened ReconcileRules
  import ReduceOnly
  import OrderJournal
  import ProtectionRules

  // ---- one move ----

  /** A move that repeats an applied event, or fails, changes nothing; any other one is made. */
  ghost predicate MoveDone(
    v: View, w: View, client: string, status: Status, result: Option<Execution>, note: string, error: Option<ServiceError>)
  {
    var repeated := Retried(v, ReconcileEvent(client, status, result, note));
    && (error.Some? || repeated ==> w == v)
    && (repeated ==> error.None?)
    && (error.None? && !repeated ==> Moved(v, w, client, status, result))
  }

  lemma SameMove(
    v: View, w: View, env: Env, client: string, status: Status, result: Option<Execution>, note: string,
    error: Option<JournalError>, outcome: Option<ServiceError>)
    requires var repeated := Retried(v, TransitionEvent(env, ReconcileId(client, status), client, status, result, note));
      && (error.Some? || repeated ==> w == v)
      && (repeated ==> error.None?)
      && (error.None? && !repeated ==> Moved(v, w, client, status, result))
    requires outcome.None? <==> error.None?
    ensures MoveDone(v, w, client, status, result, note, outcome)
  {
    hide ReconcileId, Moved;
  }

  lemma OneMove(v: View, w: View, client: string, status: Status)
    requires Applies(v, w, ReconcileId(client, status), client, status)
    ensures AppliesFor(v, w, client)
  {
    hide ReconcileId;
  }

  lemma TwoMoves(u: View, v: View, w: View, client: string)
    requires Progress(u, v) && Progress(v, w) && Only(u, v, {client}) && Only(v, w, {client})
    requires AppliesFor(u, v, client) && AppliesFor(v, w, client)
    ensures Progress(u, w) && Only(u, w, {client}) && AppliesFor(u, w, client)
  {
    hide ReconcileId;
    ProgressChains(u, v, w);
    OnlyChains(u, v, w, {client}, {client});
  }

  /** A move to the settling status, or to one that is reported as a discrepancy or as open. */
  lemma MoveReconciles(
    v: View, w: View, order: Order, hasPosition: bool, venue: Venue, status: Status, result: Option<Execution>,
    note: string, discrepancy: Option<Discrepancy>, error: Option<ServiceError>)
    requires Coherent(v) && order.client in v.orders && v.orders[order.client] == order
    requires MoveDone(v, w, order.client, status, result, note, error)
    requires Justified(order, hasPosition, venue, status)
    requires error.None? ==>
      Expected(order, status, if result.Some? then result else order.result, hasPosition, venue, discrepancy)
    requires Moves(order, hasPosition, venue, status) && (ClosesFlat(order, hasPosition, venue) ==> discrepancy == None)
    requires var event := SettlingEvent(order, hasPosition, venue);
      || discrepancy.Some?
      || (event == Some(ReconcileEvent(order.client, status, result, note)) && Settled(status))
      || (event == None && ReportedOpen(order, venue))
    ensures Reconciled(v, w, order, hasPosition, venue, discrepancy, error)
  {
    hide Coherent, ReconcileEvent, Retried, SettlingEvent, Expected, NothingComesBack, Ahead;
    NeverLostIsNotRepeated(v, order, hasPosition, venue);
    StaysOpen(order, hasPosition, venue);
    NewIsNotRetried(v, order, venue, status, result, note);
  }

  /** What may be moved to: a status ahead, closed if the order is to be closed, or a reported one. */
  predicate Moves(order: Order, hasPosition: bool, venue: Venue, status: Status) {
    && (|| Ahead(order, status)
        || (venue.lookup(order.client).Found? && venue.lookup(order.client).execution.status == status && status != order.status))
    && (ClosesFlat(order, hasPosition, venue) ==> status == Closed && !IsTerminal(order.status))
  }

  /** An order whose settling event is not terminal is neither settled nor reported as open. */
  lemma StaysOpen(order: Order, hasPosition: bool, venue: Venue)
    ensures SettlingEvent(order, hasPosition, venue).Some? ==> !ReportedOpen(order, venue)
    ensures SettlingEvent(order, hasPosition, venue).Some? && !IsTerminal(SettlingEvent(order, hasPosition, venue).value.status)
      ==> !Settled(order.status)
  {
  }

  /** The two moves after a reported fill. */
  lemma FillReconciles(
    v: View, w: View, x: View, order: Order, hasPosition: bool, venue: Venue, report: Execution, error: Option<ServiceError>)
    requires Coherent(v) && order.client in v.orders && v.orders[order.client] == order
    requires Reported(order, venue) && RemoteDiscrepancy(order, venue).None?
    requires venue.lookup(order.client).execution == report && report.status == Filled
    requires MoveDone(v, w, order.client, Filled, Some(report), LOOKUP_NOTE, None)
    requires Applies(v, w, ReconcileId(order.client, Filled), order.client, Filled)
    requires MoveDone(w, x, order.client, ProtectionOf(report), None, PROTECTION_NOTE, error)
    ensures Reconciled(v, x, order, hasPosition, venue, None, error)
  {
    hide Coherent, ReconcileId, Retried, Applies, Ahead, NothingComesBack;
    SecondRepeats(v, w, order.client, report);
    StaysOpen(order, hasPosition, venue);
    ReportLeads(order, hasPosition, venue);
    NewIsNotRetried(v, order, venue, Filled, Some(report), LOOKUP_NOTE);
    NewIsNotRetried(v, order, venue, ProtectionOf(report), None, PROTECTION_NOTE);
  }

  /** The first move does not change whether the second one repeats. */
  lemma SecondRepeats(v: View, w: View, client: string, report: Execution)
    requires Applies(v, w, ReconcileId(client, Filled), client, Filled) || v == w
    ensures var second := ReconcileEvent(client, ProtectionOf(report), None, PROTECTION_NOTE);
      Retried(w, second) <==> Retried(v, second)
  {
    hide ReconcileId;
    if ReconcileId(client, Filled) == ReconcileId(client, ProtectionOf(report)) {
      ReconcileIdIsInjective(client, Filled, client, ProtectionOf(report));
    }
  }

  lemma StaysReconciled(
    v: View, order: Order, hasPosition: bool, venue: Venue, discrepancy: Option<Discrepancy>)
    requires order.client in v.orders && v.orders[order.client] == order
    requires discrepancy.Some? || (Settled(order.status) && SettlingEvent(order, hasPosition, venue).None?)
    requires Expected(order, order.status, order.result, hasPosition, venue, discrepancy)
    requires !ClosesFlat(order, hasPosition, venue)
    ensures Reconciled(v, v, order, hasPosition, venue, discrepancy, None)
    ensures Progress(v, v) && Only(v, v, {order.client}) && AppliesFor(v, v, order.client)
  {
    hide SettlingEvent, Expected, ClosesFlat;
  }

  // ---- the methods ----

  /** reconcileOrderTransition. */
  method Move(service: Service, client: string, status: Status, result: Option<Execution>, note: string)
    returns (error: Option<ServiceError>)
    requires service.Valid()
    modifies service, service.journal.Objects()
    ensures service.Valid()
    ensures forall o :: o in service.journal.Objects() ==> o in old(service.journal.Objects()) || fresh(o)
    ensures error.Some? ==> service.frozen
    ensures Progress(old(service.View()), service.View())
    ensures Only(old(service.View()), service.View(), {client})
    ensures Applies(old(service.View()), service.View(), ReconcileId(client, status), client, status)
    ensures MoveDone(old(service.View()), service.View(), client, status, result, note, error)
    ensures Ready(old(service.View()), ReconcileId(client, status), client, status) && service.AllPersist() ==>
      error == None && Moved(old(service.View()), service.View(), client, status, result)
  {
    hide *;
    ghost var v := service.View();
    service.AllPersists(ReconcileId(client, status));
    var failure := service.Transition(ReconcileId(client, status), client, status, result, note);
    if failure.Some? {
      service.Freeze();
      error := Some(Journaling(failure.value));
    } else {
      error := None;
    }
    SameMove(v, service.View(), service.env, client, status, result, note, failure, error);
  }

  /** The branch of orders that took a position. */
  method ReconcileFill(service: Service, order: Order, hasPosition: bool)
    returns (discrepancy: Option<Discrepancy>, error: Option<ServiceError>)
    requires service.Valid() && HasFill(order.status) && order.client != ""
    requires order.client in service.View().orders && service.View().orders[order.client] == order
    modifies service, service.journal.Objects()
    ensures service.Valid()
    ensures error.Some? ==> service.frozen
    ensures forall o :: o in service.journal.Objects() ==> o in old(service.journal.Objects()) || fresh(o)
    ensures Progress(old(service.View()), service.View())
    ensures Only(old(service.View()), service.View(), {order.client})
    ensures AppliesFor(old(service.View()), service.View(), order.client)
    ensures Reconciled(old(service.View()), service.View(), order, hasPosition, service.venue, discrepancy, error)
    ensures Unhindered(old(service.View()), order, service.venue) && service.AllPersist() ==> error == None
  {
    hide *;
    ghost var v := service.View();
    ghost var ready := Unhindered(v, order, service.venue);
    var venue := service.venue;
    service.IsCoherent();
    FillCases(order, hasPosition, venue);
    if !hasPosition {
      if !venue.clears(order.client) {
        StaysReconciled(v, order, hasPosition, venue, Some(CleanupFailed));
        return Some(CleanupFailed), None;
      }
      if ready {
        MoveIsReady(v, order, venue, Closed);
      }
      error := Move(service, order.client, Closed, order.result, FLAT_NOTE);
      OneMove(v, service.View(), order.client, Closed);
      MoveReconciles(v, service.View(), order, hasPosition, venue, Closed, order.result, FLAT_NOTE, None, error);
      return None, error;
    }
    if order.status == Filled {
      var next := RestoredStatus(order);
      if ready {
        MoveIsReady(v, order, venue, next);
      }
      error := Move(service, order.client, next, None, RESTORED_NOTE);
      OneMove(v, service.View(), order.client, next);
      MoveReconciles(v, service.View(), order, hasPosition, venue, next, None, RESTORED_NOTE, None, error);
      return None, error;
    }
    if order.status == ProtectiveFailed || order.status == Flattening {
      discrepancy := Some(StillOpen(order.status));
    } else {
      discrepancy := None;
    }
    StaysReconciled(v, order, hasPosition, venue, discrepancy);
    return discrepancy, None;
  }

  lemma FillCases(order: Order, hasPosition: bool, venue: Venue)
    requires HasFill(order.status)
    ensures ClosesFlat(order, hasPosition, venue) <==> !hasPosition && venue.clears(order.client)
    ensures !hasPosition && !venue.clears(order.client) ==>
      Expected(order, order.status, order.result, hasPosition, venue, Some(CleanupFailed))
    ensures !hasPosition && venue.clears(order.client) ==>
      && Expected(order, Closed, order.result, hasPosition, venue, None) && Moves(order, hasPosition, venue, Closed)
      && Justified(order, hasPosition, venue, Closed) && LegalTransition(order.status, Closed)
      && Settled(Closed) && Ahead(order, Closed)
      && SettlingEvent(order, hasPosition, venue) == Some(ReconcileEvent(order.client, Closed, order.result, FLAT_NOTE))
    ensures hasPosition && order.status == Filled ==>
      var next := RestoredStatus(order);
      && Expected(order, next, order.result, hasPosition, venue, None) && Moves(order, hasPosition, venue, next)
      && Justified(order, hasPosition, venue, next) && LegalTransition(Filled, next)
      && Settled(next) && Ahead(order, next)
      && SettlingEvent(order, hasPosition, venue) == Some(ReconcileEvent(order.client, next, None, RESTORED_NOTE))
    ensures hasPosition && order.status != Filled && order.status != ProtectiveFailed && order.status != Flattening ==>
      Settled(order.status) && SettlingEvent(order, hasPosition, venue).None?
    ensures hasPosition && order.status != Filled ==>
      Expected(order, order.status, order.result, hasPosition, venue,
               if order.status == ProtectiveFailed || order.status == Flattening then Some(StillOpen(order.status)) else None)
  {
  }

  /** The branch of orders whose outcome is looked up. */
  method ReconcileRemote(service: Service, order: Order, hasPosition: bool)
    returns (discrepancy: Option<Discrepancy>, error: Option<ServiceError>)
    requires service.Valid() && LooksUp(order.status) && order.client != ""
    requires order.client in service.View().orders && service.View().orders[order.client] == order
    modifies service, service.journal.Objects()
    ensures service.Valid()
    ensures error.Some? ==> service.frozen
    ensures forall o :: o in service.journal.Objects() ==> o in old(service.journal.Objects()) || fresh(o)
    ensures Progress(old(service.View()), service.View())
    ensures Only(old(service.View()), service.View(), {order.client})
    ensures AppliesFor(old(service.View()), service.View(), order.client)
    ensures Reconciled(old(service.View()), service.View(), order, hasPosition, service.venue, discrepancy, error)
    ensures Unhindered(old(service.View()), order, service.venue) && service.AllPersist() ==> error == None
  {
    hide *;
    ghost var v := service.View();
    ghost var ready := Unhindered(v, order, service.venue);
    var venue := service.venue;
    service.IsCoherent();
    RemoteCases(order, hasPosition, venue);
    discrepancy := RemoteDiscrepancy(order, venue);
    if discrepancy.Some? {
      StaysReconciled(v, order, hasPosition, venue, discrepancy);
      return discrepancy, None;
    }
    if venue.lookup(order.client).NotFound? {
      if ready {
        MoveIsReady(v, order, venue, Canceled);
      }
      error := Move(service, order.client, Canceled, None, ABSENT_NOTE);
      OneMove(v, service.View(), order.client, Canceled);
      MoveReconciles(v, service.View(), order, hasPosition, venue, Canceled, None, ABSENT_NOTE, None, error);
      return None, error;
    }
    var report := venue.lookup(order.client).execution;
    ReportLeads(order, hasPosition, venue);
    if ready {
      MoveIsReady(v, order, venue, report.status);
    }
    error := Move(service, order.client, report.status, Some(report), LOOKUP_NOTE);
    ghost var w := service.View();
    OneMove(v, w, order.client, report.status);
    if error.Some? || report.status != Filled {
      if error.None? && (report.status == Acknowledged || report.status == PartiallyFilled) {
        discrepancy := Some(StillRemote(report.status));
      }
      FirstMoveReconciles(v, w, order, hasPosition, venue, report, discrepancy, error);
      return discrepancy, error;
    }
    var next := ProtectionOf(report);
    if ready && service.AllPersist() {
      SecondMoveIsReady(v, w, order, venue, Some(report), next);
    }
    error := Move(service, order.client, next, None, PROTECTION_NOTE);
    ghost var x := service.View();
    OneMove(w, x, order.client, next);
    TwoMoves(v, w, x, order.client);
    FillReconciles(v, w, x, order, hasPosition, venue, report, error);
    return None, error;
  }

  lemma RemoteCases(order: Order, hasPosition: bool, venue: Venue)
    requires LooksUp(order.status)
    ensures !ClosesFlat(order, hasPosition, venue)
    ensures RemoteDiscrepancy(order, venue).Some? ==>
      Expected(order, order.status, order.result, hasPosition, venue, RemoteDiscrepancy(order, venue))
    ensures RemoteDiscrepancy(order, venue).None? && venue.lookup(order.client).NotFound? ==>
      && Expected(order, Canceled, order.result, hasPosition, venue, None) && Moves(order, hasPosition, venue, Canceled)
      && Justified(order, hasPosition, venue, Canceled) && LegalTransition(order.status, Canceled)
      && Settled(Canceled) && Ahead(order, Canceled)
      && SettlingEvent(order, hasPosition, venue) == Some(ReconcileEvent(order.client, Canceled, None, ABSENT_NOTE))
    ensures RemoteDiscrepancy(order, venue).None? && !venue.lookup(order.client).NotFound? ==>
      Reported(order, venue) && CanTransition(order.status, venue.lookup(order.client).execution.status)
  {
  }

  lemma ReportLeads(order: Order, hasPosition: bool, venue: Venue)
    requires Reported(order, venue) && RemoteDiscrepancy(order, venue).None?
    ensures var report := venue.lookup(order.client).execution;
      && LegalTransition(order.status, report.status)
      && (report.status == Filled ==>
          && Ahead(order, ProtectionOf(report))
          && (ProtectionOf(report) == ProtectivePlaced || ProtectionOf(report) == ProtectiveFailed))
  {
  }

  /** The move to the reported status, unless a second one follows it. */
  lemma FirstMoveReconciles(
    v: View, w: View, order: Order, hasPosition: bool, venue: Venue, report: Execution,
    discrepancy: Option<Discrepancy>, error: Option<ServiceError>)
    requires Coherent(v) && order.client in v.orders && v.orders[order.client] == order
    requires Reported(order, venue) && RemoteDiscrepancy(order, venue).None? && venue.lookup(order.client).execution == report
    requires MoveDone(v, w, order.client, report.status, Some(report), LOOKUP_NOTE, error)
    requires error.Some? || (report.status != Filled
      && discrepancy == if report.status == Acknowledged || report.status == PartiallyFilled then Some(StillRemote(report.status)) else None)
    ensures Reconciled(v, w, order, hasPosition, venue, discrepancy, error)
  {
    hide Coherent, MoveDone, ReconcileEvent;
    var status := report.status;
    if error.None? && discrepancy.None? {
      assert LegalTransition(order.status, status);
      MoveReconciles(v, w, order, hasPosition, venue, status, Some(report), LOOKUP_NOTE, discrepancy, error);
    } else if discrepancy.Some? {
      MoveReconciles(v, w, order, hasPosition, venue, status, Some(report), LOOKUP_NOTE, discrepancy, error);
    } else {
      FailedMove(v, w, order, hasPosition, venue, status, Some(report), LOOKUP_NOTE, discrepancy, error);
    }
  }

  lemma FailedMove(
    v: View, w: View, order: Order, hasPosition: bool, venue: Venue, status: Status, result: Option<Execution>,
    note: string, discrepancy: Option<Discrepancy>, error: Option<ServiceError>)
    requires order.client in v.orders && v.orders[order.client] == order
    requires MoveDone(v, w, order.client, status, result, note, error) && error.Some?
    ensures Reconciled(v, w, order, hasPosition, venue, discrepancy, error)
  {
  }

  /** One order's reconciliation. */
  method ReconcileOrder(service: Service, order: Order, positions: seq<Position>)
    returns (discrepancy: Option<Discrepancy>, error: Option<ServiceError>)
    requires service.Valid() && order.client != ""
    requires order.client in service.View().orders && service.View().orders[order.client] == order
    modifies service, service.journal.Objects()
    ensures service.Valid()
    ensures error.Some? ==> service.frozen
    ensures forall o :: o in service.journal.Objects() ==> o in old(service.journal.Objects()) || fresh(o)
    ensures Progress(old(service.View()), service.View())
    ensures Only(old(service.View()), service.View(), {order.client})
    ensures AppliesFor(old(service.View()), service.View(), order.client)
    ensures Reconciled(old(service.View()), service.View(), order, HasPosition(positions, order.intent), service.venue,
                       discrepancy, error)
    ensures Unhindered(old(service.View()), order, service.venue) && service.AllPersist() ==> error == None
  {
    hide *;
    ghost var v := service.View();
    var hasPosition := PositionExists(service, positions, order.intent);
    service.IsCoherent();
    StatusCases(order, hasPosition, service.venue);
    if IsTerminal(order.status) {
      StaysReconciled(v, order, hasPosition, service.venue, None);
      return None, None;
    }
    if HasFill(order.status) {
      discrepancy, error := ReconcileFill(service, order, hasPosition);
      return;
    }
    if order.status == New {
      if Unhindered(v, order, service.venue) {
        MoveIsReady(v, order, service.venue, Canceled);
      }
      error := Move(service, order.client, Canceled, None, STOPPED_NOTE);
      OneMove(v, service.View(), order.client, Canceled);
      MoveReconciles(v, service.View(), order, hasPosition, service.venue, Canceled, None, STOPPED_NOTE, None, error);
      return None, error;
    }
    discrepancy, error := ReconcileRemote(service, order, hasPosition);
  }

  lemma StatusCases(order: Order, hasPosition: bool, venue: Venue)
    ensures IsTerminal(order.status) ==>
      && Settled(order.status) && SettlingEvent(order, hasPosition, venue).None?
      && Expected(order, order.status, order.result, hasPosition, venue, None) && !ClosesFlat(order, hasPosition, venue)
    ensures !IsTerminal(order.status) && !HasFill(order.status) && order.status != New ==> LooksUp(order.status)
    ensures order.status == New ==>
      && Expected(order, Canceled, order.result, hasPosition, venue, None) && Moves(order, hasPosition, venue, Canceled)
      && LegalTransition(New, Canceled) && Settled(Canceled) && Justified(order, hasPosition, venue, Canceled)
      && Ahead(order, Canceled)
      && SettlingEvent(order, hasPosition, venue) == Some(ReconcileEvent(order.client, Canceled, None, STOPPED_NOTE))
  {
  }

  // ---- all orders ----

  ghost predicate HasPosition(positions: seq<Position>, intent: Intent) {
    exists i :: 0 <= i < |positions| && positions[i].symbol == intent.symbol && positions[i].instrument == intent.instrument
  }

  /** The scan of positionExists. */
  method PositionExists(service: Service, positions: seq<Position>, intent: Intent) returns (found: bool)
    requires service.Valid()
    ensures service.Valid()
    ensures service.View() == old(service.View()) && service.journal.Objects() == old(service.journal.Objects())
    ensures found <==> HasPosition(positions, intent)
  {
    var i := 0;
    while i < |positions|
      invariant 0 <= i <= |positions|
      invariant !HasPosition(positions[..i], intent)
    {
      if positions[i].symbol == intent.symbol && positions[i].instrument == intent.instrument {
        return true;
      }
      i := i + 1;
    }
    assert positions[..i] == positions;
    return false;
  }

  ghost predicate OrderDone(v: View, w: View, order: Order, positions: seq<Position>, venue: Venue, clean: bool) {
    && order.client in w.orders
    && Done(v, order, w.orders[order.client].status, HasPosition(positions, order.intent), venue, clean)
  }

  /** Every order's change is justified, and a clean run has settled all but those whose settling event repeats. */
  ghost predicate AllReconciled(v: View, w: View, positions: seq<Position>, venue: Venue, clean: bool) {
    forall c :: c in v.orders ==> OrderDone(v, w, v.orders[c], positions, venue, clean)
  }

  ghost predicate AllUnhindered(v: View, venue: Venue) { forall c :: c in v.orders ==> Unhindered(v, v.orders[c], venue) }

  ghost predicate Processing(v: View, x: View, list: seq<Order>, i: nat) {
    && i <= |list| && OrderJournal.Lists(list, v.orders, true, false) && NamedClients(v)
    && Progress(v, x) && KeepsOwnIds(v, x)
    && (forall k :: i <= k < |list| ==> list[k].client in x.orders && x.orders[list[k].client] == list[k])
    && (forall k :: i <= k < |list| ==> SameIds(v, x, list[k].client))
  }

  ghost predicate Processed(
    v: View, x: View, list: seq<Order>, i: nat, positions: seq<Position>, venue: Venue, clean: bool)
  {
    forall k :: 0 <= k < i && k < |list| ==> OrderDone(v, x, list[k], positions, venue, clean)
  }

  /** The one discrepancy that is reported for an order, or none. */
  ghost predicate ListedFor(discrepancies: seq<(string, Discrepancy)>, client: string, discrepancy: Option<Discrepancy>) {
    forall d :: (client, d) in discrepancies <==> discrepancy == Some(d)
  }

  /** The order, and what is reported for it, became what the positions and the venue's answers account for. */
  ghost predicate Accounted(
    order: Order, after: Order, positions: seq<Position>, venue: Venue, discrepancies: seq<(string, Discrepancy)>)
  {
    exists d :: Explained(order, after, HasPosition(positions, order.intent), venue, d) && ListedFor(discrepancies, order.client, d)
  }

  ghost predicate AccountedUpTo(
    x: View, list: seq<Order>, i: nat, positions: seq<Position>, venue: Venue, discrepancies: seq<(string, Discrepancy)>)
  {
    && (forall k :: 0 <= k < i && k < |list| ==>
        list[k].client in x.orders && Accounted(list[k], x.orders[list[k].client], positions, venue, discrepancies))
    && (forall k :: i <= k < |list| ==> ListedFor(discrepancies, list[k].client, None))
  }

  /**
   ReconcileOrders opens and submits nothing; histories only grow, legally, and every change is justified,
   whatever was reconciled before. If neither an error nor a discrepancy is returned, an order is terminal,
   protective_placed or protective_failed, or reported by the venue itself as submitting, unknown or
   flattening, exactly if the event that would settle it does not repeat an applied one.
   An order that took a position is never closed while the venue shows one in its market. Without an error
   it is closed if there is none and its protection is cleared, and every order for which no status comes
   back has the expected status, result and discrepancy.
   */
  method ReconcileOrders(service: Service, positions: seq<Position>)
    returns (discrepancies: seq<(string, Discrepancy)>, error: Option<ServiceError>)
    requires service.Valid()
    modifies service, service.journal.Objects()
    ensures service.Valid()
    ensures error.Some? ==> service.frozen
    ensures forall o :: o in service.journal.Objects() ==> o in old(service.journal.Objects()) || fresh(o)
    ensures Progress(old(service.View()), service.View()) && KeepsOwnIds(old(service.View()), service.View())
    ensures AllReconciled(old(service.View()), service.View(), positions, service.venue, discrepancies == [] && error.None?)
    ensures AllUnhindered(old(service.View()), service.venue) && service.AllPersist() ==> error == None
    ensures forall c, i :: c in old(service.View()).orders && 0 <= i < |positions| ==>
      var order := old(service.View()).orders[c];
      order.status in {Filled, ProtectivePlaced, ProtectiveFailed, Flattening}
      && positions[i].symbol == order.intent.symbol && positions[i].instrument == order.intent.instrument
      ==> c in service.View().orders && service.View().orders[c].status != Closed
    ensures error.None? ==> forall c :: c in old(service.View()).orders ==>
      var order := old(service.View()).orders[c];
      order.status in {Filled, ProtectivePlaced, ProtectiveFailed, Flattening} && service.venue.clears(c)
      && (forall i :: 0 <= i < |positions| ==>
          positions[i].symbol != order.intent.symbol || positions[i].instrument != order.intent.instrument)
      ==> c in service.View().orders && service.View().orders[c].status == Closed
    ensures error.None? ==> forall c :: c in old(service.View()).orders ==>
      c in service.View().orders
      && Accounted(old(service.View()).orders[c], service.View().orders[c], positions, service.venue, discrepancies)
  {
    hide *;
    ghost var v := service.View();
    ghost var ready := AllUnhindered(v, service.venue) && service.AllPersist();
    service.Named();
    var list := service.AllOrders();
    ProcessingStarts(v, list, positions, service.venue);
    discrepancies := [];
    NothingListed(v, list, positions, service.venue);
    var i := 0;
    while i < |list|
      invariant i <= |list|
      invariant service.Valid()
      invariant forall o :: o in service.journal.Objects() ==> o in old(service.journal.Objects()) || fresh(o)
      invariant Processing(v, service.View(), list, i)
      invariant Processed(v, service.View(), list, i, positions, service.venue, discrepancies == [])
      invariant AccountedUpTo(service.View(), list, i, positions, service.venue, discrepancies)
    {
      ghost var x := service.View();
      var order := list[i];
      NextOrder(v, x, list, i, positions, service.venue);
      var discrepancy, failure := ReconcileOrder(service, order, positions);
      if ready {
        IsUnhindered(v, list, i, service.venue);
      }
      Advance(v, x, service.View(), list, i);
      AdvanceDone(v, x, service.View(), list, i, positions, service.venue, discrepancy, failure, discrepancies == []);
      ghost var before := discrepancies;
      if discrepancy.Some? {
        discrepancies := discrepancies + [(order.client, discrepancy.value)];
      }
      if failure.None? {
        OneMoreAccounted(v, x, service.View(), list, i, positions, service.venue, before, discrepancies, discrepancy);
      }
      i := i + 1;
      if failure.Some? {
        Stopped(v, service.View(), list, i, positions, service.venue);
        OpenStaysOpen(v, service.View(), positions, service.venue, false);
        return discrepancies, failure;
      }
    }
    Finished(v, service.View(), list, positions, service.venue, discrepancies == []);
    OpenStaysOpen(v, service.View(), positions, service.venue, discrepancies == []);
    AllAccounted(v, service.View(), list, positions, service.venue, discrepancies);
    return discrepancies, None;
  }

  lemma NothingListed(v: View, list: seq<Order>, positions: seq<Position>, venue: Venue)
    ensures AccountedUpTo(v, list, 0, positions, venue, [])
  {
  }

  lemma OneMoreAccounted(
    v: View, x: View, y: View, list: seq<Order>, i: nat, positions: seq<Position>, venue: Venue,
    before: seq<(string, Discrepancy)>, discrepancies: seq<(string, Discrepancy)>, discrepancy: Option<Discrepancy>)
    requires Processing(v, x, list, i) && i < |list| && Only(x, y, {list[i].client})
    requires AccountedUpTo(x, list, i, positions, venue, before)
    requires Reconciled(x, y, list[i], HasPosition(positions, list[i].intent), venue, discrepancy, None)
    requires discrepancies == before + if discrepancy.Some? then [(list[i].client, discrepancy.value)] else []
    ensures AccountedUpTo(y, list, i + 1, positions, venue, discrepancies)
  {
    hide Progress, Only, OrderJournal.Lists, NamedClients, ReconcileId, Explained, HasPosition, Done;
    assert OrderJournal.Lists(list, v.orders, true, false);
    ReduceOnly.RestUntouched(v, x, y, list, i);
    OrderJournal.ListedOnce(list, v.orders, true, false);
    forall k, d | 0 <= k < |list| && k != i
      ensures (list[k].client, d) in discrepancies <==> (list[k].client, d) in before
    {
      assert list[k].client != list[i].client;
    }
    assert ListedFor(discrepancies, list[i].client, discrepancy);
    assert Accounted(list[i], y.orders[list[i].client], positions, venue, discrepancies);
    forall k | 0 <= k < i ensures Accounted(list[k], y.orders[list[k].client], positions, venue, discrepancies) {
      var d :| Explained(list[k], x.orders[list[k].client], HasPosition(positions, list[k].intent), venue, d)
        && ListedFor(before, list[k].client, d);
      assert ListedFor(discrepancies, list[k].client, d);
    }
  }

  /** While the venue shows a position in its market, no order that took one is closed. */
  lemma OpenStaysOpen(v: View, w: View, positions: seq<Position>, venue: Venue, clean: bool)
    requires AllReconciled(v, w, positions, venue, clean)
    requires NamedClients(v)
    ensures forall c, i :: c in v.orders && 0 <= i < |positions| ==>
      var order := v.orders[c];
      order.status in {Filled, ProtectivePlaced, ProtectiveFailed, Flattening}
      && positions[i].symbol == order.intent.symbol && positions[i].instrument == order.intent.instrument
      ==> c in w.orders && w.orders[c].status != Closed
  {
    hide Repeats, Settled, ReportedOpen;
    forall c | c in v.orders ensures OrderDone(v, w, v.orders[c], positions, venue, clean) && v.orders[c].client == c {
    }
  }

  lemma AllAccounted(
    v: View, w: View, list: seq<Order>, positions: seq<Position>, venue: Venue, discrepancies: seq<(string, Discrepancy)>)
    requires Processing(v, w, list, |list|) && AccountedUpTo(w, list, |list|, positions, venue, discrepancies)
    ensures forall c :: c in v.orders ==>
      c in w.orders && Accounted(v.orders[c], w.orders[c], positions, venue, discrepancies)
    ensures forall c :: c in v.orders ==>
      var order := v.orders[c];
      order.status in {Filled, ProtectivePlaced, ProtectiveFailed, Flattening} && venue.clears(c)
      && (forall i :: 0 <= i < |positions| ==>
          positions[i].symbol != order.intent.symbol || positions[i].instrument != order.intent.instrument)
      ==> c in w.orders && w.orders[c].status == Closed
  {
    hide Progress, KeepsOwnIds, SameIds, Expected, NothingComesBack;
    forall c | c in v.orders
      ensures v.orders[c].client == c && c in w.orders && Accounted(v.orders[c], w.orders[c], positions, venue, discrepancies)
    {
      assert OrderJournal.Wanted(v.orders[c], false);
      assert v.orders[c] in list;
      var k :| 0 <= k < |list| && list[k] == v.orders[c];
    }
  }

  lemma ProcessingStarts(v: View, list: seq<Order>, positions: seq<Position>, venue: Venue)
    requires OrderJournal.Lists(list, v.orders, true, false) && NamedClients(v)
    ensures Processing(v, v, list, 0) && Processed(v, v, list, 0, positions, venue, true)
  {
    hide ReconcileId;
    forall k | 0 <= k < |list| ensures list[k].client in v.orders && v.orders[list[k].client] == list[k] {
      assert list[k] in list;
    }
  }

  lemma IsUnhindered(v: View, list: seq<Order>, i: nat, venue: Venue)
    requires OrderJournal.Lists(list, v.orders, true, false) && i < |list| && AllUnhindered(v, venue)
    ensures Unhindered(v, list[i], venue)
  {
    hide Unhindered;
    assert list[i] in list;
  }

  /** The next order is as it was at the start, and so is what its events repeat. */
  lemma NextOrder(v: View, x: View, list: seq<Order>, i: nat, positions: seq<Position>, venue: Venue)
    requires Processing(v, x, list, i) && i < |list|
    ensures OrderJournal.Lists(list, v.orders, true, false)
    ensures list[i].client != "" && list[i].client in x.orders && x.orders[list[i].client] == list[i]
    ensures Unhindered(v, list[i], venue) ==> Unhindered(x, list[i], venue)
  {
    hide Progress, ReconcileId, NeverLost, Reported, RemoteDiscrepancy, OwnIds;
    assert list[i] in list;
  }

  lemma SameRepeats(v: View, x: View, order: Order, hasPosition: bool, venue: Venue)
    requires SameIds(v, x, order.client)
    ensures Repeats(v, order, hasPosition, venue) == Repeats(x, order, hasPosition, venue)
  {
    hide ReconcileId, StatusText, Justified;
    var event := SettlingEvent(order, hasPosition, venue);
    if event.Some? {
      assert event.value.id == ReconcileId(order.client, event.value.status);
    }
  }

  lemma Advance(v: View, x: View, y: View, list: seq<Order>, i: nat)
    requires Processing(v, x, list, i) && i < |list|
    requires Progress(x, y) && Only(x, y, {list[i].client}) && AppliesFor(x, y, list[i].client)
    ensures Processing(v, y, list, i + 1)
  {
    hide Progress, Only, OrderJournal.Lists, NamedClients, ReconcileId, AppliesFor, OwnIds;
    ProgressChains(v, x, y);
    AppliesKeepsIds(x, y, list[i].client);
    ReduceOnly.RestUntouched(v, x, y, list, i);
    OrderJournal.ListedOnce(list, v.orders, true, false);
    forall k | i < k < |list| ensures SameIds(v, y, list[k].client) {
      assert list[i].client != list[k].client;
      SameIdsChain(v, x, y, list[k].client);
    }
  }

  lemma SameIdsChain(v: View, x: View, y: View, client: string)
    requires SameIds(v, x, client) && SameIds(x, y, client)
    ensures SameIds(v, y, client)
  {
    hide ReconcileId;
  }

  lemma AdvanceDone(
    v: View, x: View, y: View, list: seq<Order>, i: nat, positions: seq<Position>, venue: Venue,
    discrepancy: Option<Discrepancy>, error: Option<ServiceError>, clean: bool)
    requires Processing(v, x, list, i) && i < |list| && Only(x, y, {list[i].client})
    requires Processed(v, x, list, i, positions, venue, clean)
    requires Reconciled(x, y, list[i], HasPosition(positions, list[i].intent), venue, discrepancy, error)
    ensures Processed(v, y, list, i + 1, positions, venue, clean && discrepancy.None? && error.None?)
  {
    hide Progress, Only, OrderJournal.Lists, NamedClients, ReconcileId, Justified, Settled, ReportedOpen, HasPosition, Repeats;
    assert OrderJournal.Lists(list, v.orders, true, false);
    ReduceOnly.RestUntouched(v, x, y, list, i);
    SameRepeats(v, x, list[i], HasPosition(positions, list[i].intent), venue);
  }

  /** Orders after the one whose event failed were not touched. */
  lemma Stopped(v: View, y: View, list: seq<Order>, i: nat, positions: seq<Position>, venue: Venue)
    requires Processing(v, y, list, i) && Processed(v, y, list, i, positions, venue, false)
    ensures Progress(v, y) && KeepsOwnIds(v, y) && AllReconciled(v, y, positions, venue, false)
  {
    hide HasPosition, Settled, ReportedOpen, ReconcileId, Repeats;
    forall c | c in v.orders ensures OrderDone(v, y, v.orders[c], positions, venue, false) {
      assert OrderJournal.Wanted(v.orders[c], false);
      assert v.orders[c] in list;
      var k :| 0 <= k < |list| && list[k] == v.orders[c];
    }
  }

  lemma Finished(v: View, y: View, list: seq<Order>, positions: seq<Position>, venue: Venue, clean: bool)
    requires Processing(v, y, list, |list|) && Processed(v, y, list, |list|, positions, venue, clean)
    ensures Progress(v, y) && KeepsOwnIds(v, y) && AllReconciled(v, y, positions, venue, clean)
  {
    hide OrderDone;
    forall c | c in v.orders ensures OrderDone(v, y, v.orders[c], positions, venue, clean) {
      assert OrderJournal.Wanted(v.orders[c], false);
      assert v.orders[c] in list;
      var k :| 0 <= k < |list| && list[k] == v.orders[c];
    }
  }

  /** A clean reconciliation settles every order that was never lost, unless the venue reports it as open. */
  lemma CleanReconciliationSettles(v: View, w: View, positions: seq<Position>, venue: Venue, c: string)
    requires c in v.orders && c in w.orders && NeverLost(Statuses(v.orders[c].events))
    ensures Coherent(v) && AllReconciled(v, w, positions, venue, true) ==>
      Settled(w.orders[c].status) || ReportedOpen(v.orders[c], venue)
  {
    hide Repeats, HasPosition, Justified;
    if Coherent(v) && AllReconciled(v, w, positions, venue, true) {
      assert OrderDone(v, w, v.orders[c], positions, venue, true);
      assert v.orders[c].client == c;
      NeverLostIsNotRepeated(v, v.orders[c], HasPosition(positions, v.orders[c].intent), venue);
    }
  }

  /** OKX lookups report none of the three open statuses, so a clean reconciliation settles every such order. */
  lemma CleanOkxReconciliationSettles(v: View, w: View, positions: seq<Position>, venue: Venue, c: string)
    requires c in v.orders && c in w.orders && NeverLost(Statuses(v.orders[c].events))
    requires OkxAnswers(venue)
    ensures Coherent(v) && AllReconciled(v, w, positions, venue, true) ==> Settled(w.orders[c].status)
  {
    hide AllReconciled, Coherent, NeverLost;
    CleanReconciliationSettles(v, w, positions, venue, c);
  }

  /** Every lookup that finds an order reports the status of its OKX state. */
  ghost predicate OkxAnswers(venue: Venue) {
    forall c :: venue.lookup(c).Found? ==>
      exists state, filled :: venue.lookup(c).execution.status == ProtectionRules.OkxStatus(state, filled)
  }
}
