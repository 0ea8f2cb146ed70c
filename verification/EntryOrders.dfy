/** The entry order of one run, from its intent to protection or flattening: internal/orchestrator/service.go. */
module EntryOrders {
  import opened Wrappers
  import opened OrderTypes
  import opened OrderLog
  import opened OrderMoves
  import opened ProtectionRules
  import opened OrderService
  import opened ReduceOnly
  import opened Remediation

  /**
   The execution branch of a run: journal the intent and the submission, place the order, and settle
   what the venue answered.
   */
  method ExecuteEntry(service: Service, runId: string, intent: Intent)
    returns (execution: Option<Execution>, error: Option<ServiceError>)
    requires service.Valid()
    modifies service, service.journal.Objects()
    ensures service.Valid()
    ensures forall o :: o in service.journal.Objects() ==> o in old(service.journal.Objects()) || fresh(o)
    ensures error.Some? && error != Some(PlacementError) ==> service.frozen
    ensures EntryReady(old(service.View()), runId, intent) && error.None? ==>
      && execution.Some? && service.venue.place(intent.clientId) == Placed(execution.value)
      && EntryHolds(service.View(), runId, intent, execution.value, service.rules, service.venue)
    ensures EntryReady(old(service.View()), runId, intent) && service.AllPersist() ==>
      match service.venue.place(intent.clientId)
      case Placed(report) =>
        && execution == Some(report)
        && EntrySettled(service.View(), runId, intent, report, service.rules, service.venue, error, service.frozen)
      case PlacementFailed(unknown) =>
        && execution == None && error == Some(PlacementError)
        && InStatus(service.View(), intent.clientId, if unknown then Unknown else Failed)
        && (unknown ==> service.frozen)
  {
    hide *;
    ghost var v := service.View();
    ghost var ready := EntryReady(v, runId, intent);
    if ready {
      EntryNeeds(v, runId, intent);
    }
    error := BeginSubmission(service, runId, intent);
    if error.Some? {
      return None, error;
    }
    ghost var w := service.View();
    if ready {
      SubmissionIsFresh(v, w, runId, intent);
    }
    match service.venue.place(intent.clientId)
    case PlacementFailed(unknown) =>
      error := FailSubmission(service, runId, intent, unknown);
      if ready && service.AllPersist() {
        MovedTo(w, service.View(), intent.clientId, if unknown then Unknown else Failed, None);
      }
      return None, error;
    case Placed(report) =>
      error := SettleEntry(service, runId, intent, report);
      return Some(report), error;
  }

  /**
   After the venue's answer: record it and, if the order is then without its protection, remediate
   under the same run id. Whatever the store does, no error means that the order is where the report
   puts it and not unprotected; every error freezes new positions.
   */
  method SettleEntry(service: Service, runId: string, intent: Intent, execution: Execution)
    returns (error: Option<ServiceError>)
    requires service.Valid()
    modifies service, service.journal.Objects()
    ensures service.Valid()
    ensures forall o :: o in service.journal.Objects() ==> o in old(service.journal.Objects()) || fresh(o)
    ensures error.Some? ==> service.frozen
    ensures SettleReady(old(service.View()), runId, intent) && error.None? ==>
      EntryHolds(service.View(), runId, intent, execution, service.rules, service.venue)
    ensures SettleReady(old(service.View()), runId, intent) && service.AllPersist() ==>
      EntrySettled(service.View(), runId, intent, execution, service.rules, service.venue, error, service.frozen)
  {
    hide *;
    ghost var v := service.View();
    ghost var ready := SettleReady(v, runId, intent);
    if ready {
      SettleNeeds(v, runId, intent);
    }
    var failure := service.RecordExecution(runId, intent, execution);
    if failure.Some? {
      service.Freeze();
      return Some(Journaling(failure.value));
    }
    ghost var w := service.View();
    if ready {
      Recorded(v, w, runId, intent, execution, service.rules);
    }
    var order := service.CurrentOrder(intent.clientId);
    if ready {
      Tracked(w, intent.clientId, RecordedStatus(intent, execution, service.rules), order);
    }
    if order.Some? && order.value.status == ProtectiveFailed {
      error := RemediateProtection(service, runId, intent);
      if ready {
        Remediated(service.View(), runId, intent, execution, service.rules, service.venue, error, service.frozen);
      }
      return;
    }
    if ready {
      NothingToRemediate(w, runId, intent, execution, service.rules, service.venue, service.frozen);
    }
    return None;
  }

  // ---- specification ----

  /** An entry of which nothing was journaled yet. */
  ghost predicate EntryReady(v: View, runId: string, intent: Intent) {
    && SubmissionReady(v, runId, intent) && RemediationIdsFresh(v, runId)
    && intent.clientId != FlattenId(runId)
  }

  /** A submitted entry whose result was not recorded yet. */
  ghost predicate SettleReady(v: View, runId: string, intent: Intent) {
    && RecordReady(v, runId, intent) && v.orders[intent.clientId].intent == intent
    && RemediationIdsFresh(v, runId)
  }

  /** The order is where the report puts it, or its protection was restored. */
  ghost predicate EntryHolds(w: View, runId: string, intent: Intent, execution: Execution, rules: Rules, venue: Venue) {
    if RecordedStatus(intent, execution, rules) != ProtectiveFailed
    then InStatus(w, intent.clientId, RecordedStatus(intent, execution, rules))
    else Remedied(venue, intent, execution.filledBase, rules) && InStatus(w, intent.clientId, ProtectivePlaced)
  }

  /** The end of an entry whose steps were all stored. */
  ghost predicate EntrySettled(
    w: View, runId: string, intent: Intent, execution: Execution, rules: Rules, venue: Venue,
    error: Option<ServiceError>, frozen: bool)
  {
    if RecordedStatus(intent, execution, rules) != ProtectiveFailed || Remedied(venue, intent, execution.filledBase, rules)
    then error.None? && EntryHolds(w, runId, intent, execution, rules, venue)
    else error.Some? && frozen && InStatus(w, intent.clientId, if Flattened(venue, runId, intent) then Closed else Flattening)
  }

  /**
   An entry that opened a position and asked for protection ends verifiably protected, or new positions
   are frozen and the position is closed or being flattened; it is closed exactly if the flatten completed.
   */
  lemma OpenedEntryIsProtected(
    w: View, runId: string, intent: Intent, execution: Execution, rules: Rules, venue: Venue,
    error: Option<ServiceError>, frozen: bool)
    requires EntrySettled(w, runId, intent, execution, rules, venue, error, frozen)
    requires OpenedPosition(execution) && ExpectsProtection(intent)
    ensures InStatus(w, intent.clientId, ProtectivePlaced) <==> error.None?
    ensures error.None? <==>
      (Satisfied(intent, execution.filledBase, execution.protectiveOrders, rules)
       || Remedied(venue, intent, execution.filledBase, rules))
    ensures error.Some? ==>
      frozen && InStatus(w, intent.clientId, if Flattened(venue, runId, intent) then Closed else Flattening)
  {
    hide Satisfied, Remedied, Flattened;
    ProtectionFailsClosed(intent, execution, rules);
  }

  // ---- the steps ----

  lemma EntryNeeds(v: View, runId: string, intent: Intent)
    requires EntryReady(v, runId, intent)
    ensures SubmissionReady(v, runId, intent)
  {
  }

  lemma SettleNeeds(v: View, runId: string, intent: Intent)
    requires SettleReady(v, runId, intent)
    ensures RecordReady(v, runId, intent)
  {
  }

  /** The ids of a run's own submission are none of its remediation. */
  lemma RemediationStaysFresh(v: View, w: View, runId: string, client: string, ids: set<string>)
    requires RemediationIdsFresh(v, runId) && client != FlattenId(runId)
    requires Only(v, w, {client}) && Uses(v, w, ids) && ids <= SubmissionIds(runId)
    ensures RemediationIdsFresh(w, runId)
  {
    OtherSuffix(runId, ":protective-remediated");
    OtherSuffix(runId, ":flattening");
    OtherSuffix(runId, ":flatten-closed");
    assert ":flatten:"[2] == 'l' && ":fail"[2] == 'a';
    assert ":flatten:"[1] == 'f';
    NotFlattenId(runId, ":open");
    NotFlattenId(runId, ":submit");
    NotFlattenId(runId, ":fail");
    NotFlattenId(runId, ":result");
    NotFlattenId(runId, ":protective");
  }

  lemma SubmissionIsFresh(v: View, w: View, runId: string, intent: Intent)
    requires EntryReady(v, runId, intent) && Submitted(w, runId, intent)
    requires Only(v, w, {intent.clientId}) && Uses(v, w, {runId + ":open", runId + ":submit"})
    ensures SettleReady(w, runId, intent)
  {
    hide RemediationIdsFresh;
    SubmissionIdsContain(runId);
    RemediationStaysFresh(v, w, runId, intent.clientId, {runId + ":open", runId + ":submit"});
  }

  lemma Recorded(v: View, w: View, runId: string, intent: Intent, execution: Execution, rules: Rules)
    requires SettleReady(v, runId, intent)
    requires Only(v, w, {intent.clientId}) && Uses(v, w, {runId + ":result", runId + ":protective"})
    requires Moved(v, w, intent.clientId, RecordedStatus(intent, execution, rules), Some(execution))
    ensures InStatus(w, intent.clientId, RecordedStatus(intent, execution, rules))
    ensures FilledBase(w, intent.clientId) == execution.filledBase
    ensures RecordedStatus(intent, execution, rules) == ProtectiveFailed ==> RemediationReady(w, runId, intent)
  {
    hide RemediationIdsFresh, RecordedStatus;
    SubmissionIdsContain(runId);
    assert FlattenId(runId) !in v.orders by {
      RemediationNamesNoOrder(v, runId);
    }
    RemediationStaysFresh(v, w, runId, intent.clientId, {runId + ":result", runId + ":protective"});
  }

  lemma RemediationNamesNoOrder(v: View, runId: string)
    requires RemediationIdsFresh(v, runId)
    ensures FlattenId(runId) !in v.orders
  {
  }

  lemma Tracked(w: View, client: string, status: Status, order: Option<Order>)
    requires InStatus(w, client, status)
    requires order == if client in w.orders then Some(w.orders[client]) else None
    ensures order.Some? && order.value.status == status
  {
  }

  lemma Remediated(
    x: View, runId: string, intent: Intent, execution: Execution, rules: Rules, venue: Venue,
    error: Option<ServiceError>, frozen: bool)
    requires RecordedStatus(intent, execution, rules) == ProtectiveFailed
    ensures error.None? && Remedied(venue, intent, execution.filledBase, rules)
            && InStatus(x, intent.clientId, ProtectivePlaced)
      ==> EntryHolds(x, runId, intent, execution, rules, venue)
          && EntrySettled(x, runId, intent, execution, rules, venue, error, frozen)
    ensures error.Some? && frozen && !Remedied(venue, intent, execution.filledBase, rules)
            && InStatus(x, intent.clientId, if Flattened(venue, runId, intent) then Closed else Flattening)
      ==> EntrySettled(x, runId, intent, execution, rules, venue, error, frozen)
  {
    hide RecordedStatus, Remedied, Flattened;
  }

  lemma NothingToRemediate(w: View, runId: string, intent: Intent, execution: Execution, rules: Rules, venue: Venue, frozen: bool)
    requires InStatus(w, intent.clientId, RecordedStatus(intent, execution, rules))
    requires RecordedStatus(intent, execution, rules) != ProtectiveFailed
    ensures EntryHolds(w, runId, intent, execution, rules, venue)
    ensures EntrySettled(w, runId, intent, execution, rules, venue, None, frozen)
  {
    hide RecordedStatus, Remedied, Flattened;
  }
}
