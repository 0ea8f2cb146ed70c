/** Restoring lost protection, and the emergency flatten: internal/orchestrator/protection.go. */
module Remediation {
  import opened Wrappers
  import opened OrderTypes
  import opened OrderMachine
  import opened OrderLog
  import opened OrderMoves
  import opened ProtectionRules
  import opened OrderService
  import opened ReduceOnly

  const ATTEMPTS := 2

  method FindPosition(service: Service, positions: seq<Position>, intent: Intent) returns (target: Option<Position>)
    requires service.Valid()
    ensures service.Valid()
    ensures service.View() == old(service.View()) && service.journal.Objects() == old(service.journal.Objects())
    ensures target == Target(positions, intent)
    ensures target.Some? ==> SameMarket(target.value, intent)
  {
    var i := 0;
    while i < |positions|
      invariant 0 <= i <= |positions|
      invariant Target(positions, intent) == Target(positions[i..], intent)
    {
      assert positions[i..][1..] == positions[i + 1..];
      if SameMarket(positions[i], intent) {
        return Some(positions[i]);
      }
      i := i + 1;
    }
    return None;
  }

  /**
   flattenPosition: the order ends closed exactly if the venue shows no position and clears its
   protection, or fills the reduce-only close and is verified flat; else it stays in flattening.
   */
  method FlattenPosition(service: Service, runId: string, intent: Intent) returns (error: Option<ServiceError>)
    requires service.Valid()
    modifies service, service.journal.Objects()
    ensures service.Valid()
    ensures forall o :: o in service.journal.Objects() ==> o in old(service.journal.Objects()) || fresh(o)
    ensures old(service.frozen) ==> service.frozen
    ensures FlattenReady(old(service.View()), runId, intent) && service.AllPersist() ==>
      && InStatus(service.View(), intent.clientId, if Flattened(service.venue, runId, intent) then Closed else Flattening)
      && InStatus(service.View(), intent.clientId, if Completes(service.venue, runId, intent) then Closed else Flattening)
      && ClosesFirst(service.View(), service.venue, runId, intent)
      && (error.None? <==> Completes(service.venue, runId, intent)
                           && (NoneInMarket(service.venue.positions.value, intent) || service.venue.settles))
  {
    hide *;
    ghost var v := service.View();
    ghost var ready := FlattenReady(v, runId, intent) && service.AllPersist();
    var client := intent.clientId;
    FlattenCases(service.venue, runId, intent);
    FlattenedMeans(service.venue, runId, intent);
    NothingToClose(service.View(), service.venue, runId, intent);
    service.AllPersists(runId + ":flatten-closed");
    if ready {
      FlattenNeeds(v, runId, intent);
    }
    if service.venue.positions.None? {
      return Some(PositionsUnavailable);
    }
    var target := FindPosition(service, service.venue.positions.value, intent);
    if target.Some? {
      TargetCases(service.venue, runId, intent, target.value);
    }
    if target.None? {
      if !service.venue.clears(client) {
        return Some(ResidualProtection);
      }
      var failure := service.Transition(runId + ":flatten-closed", client, Closed, None, "position already flat before emergency flatten");
      NothingToClose(service.View(), service.venue, runId, intent);
      if ready {
        MovedTo(v, service.View(), client, Closed, None);
      }
      if failure.Some? {
        service.Freeze();
        return Some(Journaling(failure.value));
      }
      return None;
    }
    error := CloseTarget(service, runId, intent, target.value);
  }

  /** The reduce-only close of flattenPosition, for the position it found. */
  method CloseTarget(service: Service, runId: string, intent: Intent, target: Position) returns (error: Option<ServiceError>)
    requires service.Valid()
    modifies service, service.journal.Objects()
    ensures service.Valid()
    ensures forall o :: o in service.journal.Objects() ==> o in old(service.journal.Objects()) || fresh(o)
    ensures old(service.frozen) ==> service.frozen
    ensures FlattenReady(old(service.View()), runId, intent) && service.AllPersist() && IsTarget(service.venue, intent, target) ==>
      && InStatus(service.View(), intent.clientId, if Flattened(service.venue, runId, intent) then Closed else Flattening)
      && ClosesFirst(service.View(), service.venue, runId, intent)
      && (error.None? <==> Flattened(service.venue, runId, intent) && service.venue.settles)
  {
    hide *;
    ghost var v := service.View();
    ghost var ready := FlattenReady(v, runId, intent) && service.AllPersist() && IsTarget(service.venue, intent, target);
    var client := intent.clientId;
    TargetCases(service.venue, runId, intent, target);
    var close := CloseIntent(runId, target);
    var prefix := runId + ":flatten";
    GivenPrefix(prefix, close.clientId, runId, target);
    if ready {
      CloseIsReady(v, runId, intent, target);
    }
    var execution, closeError := ExecuteReduceOnly(service, prefix, close);
    ghost var w := service.View();
    if ready {
      StillFlattening(v, w, runId, intent, target, service.rules, service.venue, execution, closeError, service.frozen);
      ClosedFirst(w, w, service.venue, runId, intent);
    }
    var filled := execution.Some? && execution.value.status == Filled;
    if closeError.Some? && !filled {
      return closeError;
    }
    if !filled {
      return Some(NotFilled);
    }
    if !service.venue.finalizes {
      return Some(NotFlat);
    }
    if ready {
      SweepIsReady(v, w, runId, intent, target, service.rules, execution.value, closeError, service.frozen);
    }
    error := CompleteReduceOnly(service, prefix, close.clientId, execution.value);
    if ready {
      SourceIsClosed(w, service.View(), close.clientId, client);
      ClosedFirst(w, service.View(), service.venue, runId, intent);
    }
    if error.Some? {
      return;
    }
    if !service.venue.settles {
      service.Freeze();
      return Some(NotSettled);
    }
    return closeError;
  }

  /** The position that the scan finds. */
  ghost predicate IsTarget(venue: Venue, intent: Intent, target: Position) {
    venue.positions.Some? && Target(venue.positions.value, intent) == Some(target) && SameMarket(target, intent)
  }

  lemma TargetCases(venue: Venue, runId: string, intent: Intent, target: Position)
    ensures IsTarget(venue, intent, target) ==>
      && venue.positions.Some? && Target(venue.positions.value, intent) == Some(target) && SameMarket(target, intent)
      && (Flattened(venue, runId, intent) <==>
          (venue.place(FlattenId(runId)).Placed? && venue.place(FlattenId(runId)).execution.status == Filled && venue.finalizes))
    ensures venue.positions.Some? && Target(venue.positions.value, intent) == Some(target) && SameMarket(target, intent) ==>
      IsTarget(venue, intent, target)
  {
  }

  /** The attempts of remediateProtection: place, read back, check. */
  method TryProtection(service: Service, intent: Intent, filled: real) returns (remedied: bool)
    requires service.Valid()
    ensures service.Valid()
    ensures service.View() == old(service.View()) && service.journal.Objects() == old(service.journal.Objects())
    ensures remedied <==> Remedied(service.venue, intent, filled, service.rules)
  {
    hide *;
    ghost var v, objects := service.View(), service.journal.Objects();
    RemediedCases(service.venue, intent, filled, service.rules);
    var attempt := 1;
    while service.venue.canRemediate && attempt <= ATTEMPTS
      invariant service.Valid() && service.View() == v && service.journal.Objects() == objects
      invariant 1 <= attempt <= ATTEMPTS + 1
      invariant forall a :: 1 <= a < attempt ==> !AttemptVerified(service.venue, a, intent, filled, service.rules)
      decreases ATTEMPTS + 1 - attempt
    {
      VerifiedCases(service.venue, attempt, intent, filled, service.rules);
      if service.venue.placesProtection(attempt) {
        var verified := service.venue.reportsProtection(attempt);
        if verified.Some? {
          var satisfied := service.IsProtected(intent, filled, verified.value);
          if satisfied {
            RemediedBy(service.venue, attempt, intent, filled, service.rules);
            return true;
          }
        }
      }
      attempt := attempt + 1;
    }
    return false;
  }

  /**
   remediateProtection: at most two attempts to place and verify the protection again. Whatever the
   store does, it returns no error only for a protected order and freezes new positions otherwise. With a
   store that takes every write it returns no error exactly if a verified report satisfied the request,
   and otherwise the order is closed or still flattening.
   */
  method RemediateProtection(service: Service, runId: string, intent: Intent) returns (error: Option<ServiceError>)
    requires service.Valid()
    modifies service, service.journal.Objects()
    ensures service.Valid()
    ensures forall o :: o in service.journal.Objects() ==> o in old(service.journal.Objects()) || fresh(o)
    ensures error.Some? ==> service.frozen
    ensures RemediationReady(old(service.View()), runId, intent) && error.None? ==>
      && Remedied(service.venue, intent, FilledBase(old(service.View()), intent.clientId), service.rules)
      && InStatus(service.View(), intent.clientId, ProtectivePlaced)
    ensures RemediationReady(old(service.View()), runId, intent) && service.AllPersist() ==>
      && (error.None? <==> Remedied(service.venue, intent, FilledBase(old(service.View()), intent.clientId), service.rules))
      && InStatus(service.View(), intent.clientId,
                  if error.None? then ProtectivePlaced else if Flattened(service.venue, runId, intent) then Closed else Flattening)
  {
    hide *;
    ghost var v := service.View();
    ghost var ready := RemediationReady(v, runId, intent);
    var client := intent.clientId;
    service.AllPersists(runId + ":protective-remediated");
    if ready {
      RemediationNeeds(v, runId, intent);
    }
    var tracked := service.CurrentOrder(client);
    var filled := FilledOf(tracked);
    FilledIsTracked(v, client, tracked);
    var remedied := TryProtection(service, intent, filled);
    if remedied {
      var failure := service.Transition(runId + ":protective-remediated", client, ProtectivePlaced, None,
                                "protective orders re-placed and verified");
      if failure.Some? {
        service.Freeze();
        return Some(Journaling(failure.value));
      }
      if ready {
        MovedTo(v, service.View(), client, ProtectivePlaced, None);
      }
      return None;
    }
    error := GiveUp(service, runId, intent);
  }

  /** The end of remediateProtection when no attempt succeeded: freeze, then flatten. */
  method GiveUp(service: Service, runId: string, intent: Intent) returns (error: Option<ServiceError>)
    requires service.Valid()
    modifies service, service.journal.Objects()
    ensures service.Valid()
    ensures forall o :: o in service.journal.Objects() ==> o in old(service.journal.Objects()) || fresh(o)
    ensures error.Some? && service.frozen
    ensures RemediationReady(old(service.View()), runId, intent) && service.AllPersist() ==>
      InStatus(service.View(), intent.clientId, if Flattened(service.venue, runId, intent) then Closed else Flattening)
  {
    hide *;
    ghost var v := service.View();
    ghost var ready := RemediationReady(v, runId, intent) && service.AllPersist();
    service.AllPersists(runId + ":flattening");
    if ready {
      RemediationNeeds(v, runId, intent);
    }
    service.Freeze();
    var failure := service.Transition(runId + ":flattening", intent.clientId, Flattening, None,
                                      "protective remediation exhausted; emergency flatten");
    if failure.Some? {
      service.Freeze();
      return Some(Journaling(failure.value));
    }
    if ready {
      FlatteningIsReady(v, service.View(), runId, intent);
    }
    var flattened := FlattenPosition(service, runId, intent);
    return Some(RemediationExhausted);
  }

  // ---- the emergency flatten ----

  function FlattenId(runId: string): string { "flatten-" + runId }

  function CloseIntent(runId: string, target: Position): Intent {
    Intent(FlattenId(runId), target.symbol, target.side, target.instrument, true, None, [])
  }

  predicate SameMarket(position: Position, intent: Intent) {
    position.symbol == intent.symbol && position.instrument == intent.instrument
  }

  /** The first position in the intent's market. */
  function Target(positions: seq<Position>, intent: Intent): Option<Position> {
    if positions == [] then None
    else if SameMarket(positions[0], intent) then Some(positions[0])
    else Target(positions[1..], intent)
  }

  ghost predicate NoneInMarket(positions: seq<Position>, intent: Intent) {
    forall i :: 0 <= i < |positions| ==> positions[i].symbol != intent.symbol || positions[i].instrument != intent.instrument
  }

  /**
   When the flatten completes, in the venue's answers: the positions are known; if none is in the market
   the protection is cleared, otherwise the close order is filled and the venue verified flat.
   */
  ghost predicate Completes(venue: Venue, runId: string, intent: Intent) {
    && venue.positions.Some?
    && if NoneInMarket(venue.positions.value, intent) then venue.clears(intent.clientId)
       else
         && venue.place("flatten-" + runId).Placed?
         && venue.place("flatten-" + runId).execution.status == Filled
         && venue.finalizes
  }

  /** The close order is for the first position in the market. */
  ghost predicate ClosesFirst(w: View, venue: Venue, runId: string, intent: Intent) {
    venue.positions.Some? ==> forall i :: 0 <= i < |venue.positions.value| && NoneInMarket(venue.positions.value[..i], intent) ==>
      var position := venue.positions.value[i];
      position.symbol == intent.symbol && position.instrument == intent.instrument ==>
        && "flatten-" + runId in w.orders
        && w.orders["flatten-" + runId].intent
           == Intent("flatten-" + runId, position.symbol, position.side, position.instrument, true, None, [])
  }

  lemma {:induction false} TargetIsFirst(positions: seq<Position>, intent: Intent)
    ensures Target(positions, intent).None? <==> NoneInMarket(positions, intent)
    ensures forall i :: 0 <= i < |positions| ==>
      (NoneInMarket(positions[..i], intent)
       && positions[i].symbol == intent.symbol && positions[i].instrument == intent.instrument
       ==> Target(positions, intent) == Some(positions[i]))
  {
    if positions != [] {
      TargetIsFirst(positions[1..], intent);
      forall i | 0 <= i < |positions| && NoneInMarket(positions[..i], intent)
        && positions[i].symbol == intent.symbol && positions[i].instrument == intent.instrument
        ensures Target(positions, intent) == Some(positions[i])
      {
        if i > 0 {
          assert positions[..i][0] == positions[0];
          assert positions[1..][i - 1] == positions[i];
          assert positions[1..][..i - 1] == positions[..i][1..];
        }
      }
    }
  }

  lemma FlattenedMeans(venue: Venue, runId: string, intent: Intent)
    ensures Flattened(venue, runId, intent) <==> Completes(venue, runId, intent)
    ensures venue.positions.Some? ==>
      (Target(venue.positions.value, intent).None? <==> NoneInMarket(venue.positions.value, intent))
  {
    if venue.positions.Some? {
      TargetIsFirst(venue.positions.value, intent);
    }
  }

  lemma NothingToClose(w: View, venue: Venue, runId: string, intent: Intent)
    ensures venue.positions.None? || Target(venue.positions.value, intent).None? ==> ClosesFirst(w, venue, runId, intent)
  {
    if venue.positions.Some? {
      TargetIsFirst(venue.positions.value, intent);
    }
  }

  lemma ClosedFirst(w: View, x: View, venue: Venue, runId: string, intent: Intent)
    requires venue.positions.Some? && Target(venue.positions.value, intent).Some?
    requires FlattenId(runId) in w.orders
    requires w.orders[FlattenId(runId)].intent == CloseIntent(runId, Target(venue.positions.value, intent).value)
    ensures ClosesFirst(w, venue, runId, intent)
    ensures Progress(w, x) ==> ClosesFirst(x, venue, runId, intent)
  {
    TargetIsFirst(venue.positions.value, intent);
  }

  ghost predicate InStatus(w: View, client: string, status: Status) { client in w.orders && w.orders[client].status == status }

  /** No event id of the log starts with this. */
  ghost predicate NoIdWith(v: View, prefix: string) { forall id :: id in v.applied ==> !(prefix <= id) }

  ghost predicate FlattenReady(v: View, runId: string, intent: Intent) {
    && intent.clientId != "" && InStatus(v, intent.clientId, Flattening)
    && v.orders[intent.clientId].intent.symbol == intent.symbol
    && v.orders[intent.clientId].intent.instrument == intent.instrument
    && FlattenId(runId) !in v.orders
    && runId + ":flatten-closed" !in v.applied
    && NoIdWith(v, runId + ":flatten:")
  }

  /** The venue's answers with which the flatten completes. */
  ghost predicate Flattened(venue: Venue, runId: string, intent: Intent) {
    && venue.positions.Some?
    && if Target(venue.positions.value, intent).None? then venue.clears(intent.clientId)
       else
         && venue.place(FlattenId(runId)).Placed?
         && venue.place(FlattenId(runId)).execution.status == Filled
         && venue.finalizes
  }

  lemma FlattenCases(venue: Venue, runId: string, intent: Intent)
    ensures venue.positions.None? ==> !Flattened(venue, runId, intent)
    ensures venue.positions.Some? && Target(venue.positions.value, intent).None? ==>
      (Flattened(venue, runId, intent) <==> venue.clears(intent.clientId))
    ensures venue.positions.Some? && Target(venue.positions.value, intent).Some? ==>
      (Flattened(venue, runId, intent) <==>
        (venue.place(FlattenId(runId)).Placed? && venue.place(FlattenId(runId)).execution.status == Filled && venue.finalizes))
  {
  }

  lemma FlattenNeeds(v: View, runId: string, intent: Intent)
    requires FlattenReady(v, runId, intent)
    ensures InStatus(v, intent.clientId, Flattening)
    ensures Ready(v, runId + ":flatten-closed", intent.clientId, Closed)
  {
  }

  lemma MovedTo(v: View, w: View, client: string, status: Status, result: Option<Execution>)
    requires Moved(v, w, client, status, result)
    ensures InStatus(w, client, status)
  {
  }

  lemma GivenPrefix(prefix: string, client: string, runId: string, target: Position)
    requires prefix == runId + ":flatten"
    ensures PrefixOr(prefix, client) == prefix
    ensures CloseIntent(runId, target).clientId == FlattenId(runId)
  {
  }

  lemma HasFlattenPrefix(runId: string, rest: string)
    ensures runId + ":flatten:" <= runId + ":flatten" + (":" + rest)
  {
    assert runId + ":flatten" + (":" + rest) == runId + ":flatten:" + rest;
  }

  lemma CloseIdsHavePrefix(runId: string)
    ensures forall id :: id in SubmissionIds(runId + ":flatten") ==> runId + ":flatten:" <= id
  {
    HasFlattenPrefix(runId, "open");
    HasFlattenPrefix(runId, "submit");
    HasFlattenPrefix(runId, "fail");
    HasFlattenPrefix(runId, "result");
    HasFlattenPrefix(runId, "protective");
  }

  lemma CloseIsReady(v: View, runId: string, intent: Intent, target: Position)
    requires FlattenReady(v, runId, intent)
    ensures CloseReady(v, runId + ":flatten", CloseIntent(runId, target))
  {
    hide SubmissionIds;
    CloseIdsHavePrefix(runId);
  }

  lemma StillFlattening(
    v: View, w: View, runId: string, intent: Intent, target: Position, rules: Rules, venue: Venue,
    execution: Option<Execution>, error: Option<ServiceError>, frozen: bool)
    requires FlattenReady(v, runId, intent) && Only(v, w, {FlattenId(runId)})
    requires OrderPlaced(w, CloseIntent(runId, target), rules, venue.place(FlattenId(runId)), execution, error, frozen)
    ensures InStatus(w, intent.clientId, Flattening)
    ensures FlattenId(runId) in w.orders && w.orders[FlattenId(runId)].intent == CloseIntent(runId, target)
    ensures (execution.Some? && execution.value.status == Filled) <==>
      (venue.place(FlattenId(runId)).Placed? && venue.place(FlattenId(runId)).execution.status == Filled)
    ensures execution.Some? ==>
      OrderPlaced(w, CloseIntent(runId, target), rules, Placed(execution.value), execution, error, frozen)
  {
    assert intent.clientId !in {FlattenId(runId)};
  }

  /** A filled close order can be completed, and the flattening order is one it closes. */
  lemma SweepIsReady(
    v: View, w: View, runId: string, intent: Intent, target: Position, rules: Rules,
    report: Execution, error: Option<ServiceError>, frozen: bool)
    requires FlattenReady(v, runId, intent) && SameMarket(target, intent)
    requires Only(v, w, {FlattenId(runId)}) && Uses(v, w, SubmissionIds(runId + ":flatten"))
    requires OrderPlaced(w, CloseIntent(runId, target), rules, Placed(report), Some(report), error, frozen)
    requires report.status == Filled
    ensures SweepReady(w, runId + ":flatten", FlattenId(runId))
    ensures intent.clientId in Sources(w, FlattenId(runId))
  {
    assert intent.clientId !in {FlattenId(runId)};
    FilledCloses(CloseIntent(runId, target), report, rules);
    SweepIdsFresh(v, w, runId);
    FlattenIdNamed(runId);
  }

  lemma FlattenIdNamed(runId: string)
    ensures FlattenId(runId) != ""
  {
  }

  lemma FilledCloses(close: Intent, report: Execution, rules: Rules)
    requires close.reduceOnly && close.stopLoss.None? && close.takeProfit == [] && report.status == Filled
    ensures LegalTransition(RecordedStatus(close, report, rules), Closed)
  {
  }

  lemma SweepIdsFresh(v: View, w: View, runId: string)
    requires NoIdWith(v, runId + ":flatten:") && Uses(v, w, SubmissionIds(runId + ":flatten"))
    ensures SourceIdsFresh(w, runId + ":flatten") && runId + ":flatten" + ":closed" !in w.applied
  {
    var prefix := runId + ":flatten";
    HasFlattenPrefix(runId, "closed");
    OtherSuffix(prefix, ":closed");
    forall c | c in w.orders ensures SourceId(prefix, c) !in w.applied {
      var rest := "source:" + c + ":closed";
      assert SourceId(prefix, c) == prefix + (":" + rest);
      HasFlattenPrefix(runId, rest);
      OtherSuffix(prefix, ":" + rest);
    }
  }

  lemma OtherSuffix(prefix: string, suffix: string)
    requires suffix !in {":open", ":submit", ":fail", ":result", ":protective"}
    ensures prefix + suffix !in SubmissionIds(prefix)
  {
    DifferentIds(prefix, suffix, ":open");
    DifferentIds(prefix, suffix, ":submit");
    DifferentIds(prefix, suffix, ":fail");
    DifferentIds(prefix, suffix, ":result");
    DifferentIds(prefix, suffix, ":protective");
  }

  lemma SourceIsClosed(w: View, x: View, close: string, client: string)
    requires Swept(w, x, close) && client in Sources(w, close)
    ensures InStatus(x, client, Closed)
  {
  }

  // ---- remediation ----

  /** The attempt's order was accepted and the venue then reported the requested protection. */
  ghost predicate AttemptVerified(venue: Venue, attempt: int, intent: Intent, filled: real, rules: Rules) {
    && venue.placesProtection(attempt)
    && venue.reportsProtection(attempt).Some?
    && Covered(intent, filled, venue.reportsProtection(attempt).value, rules)
  }

  ghost predicate Remedied(venue: Venue, intent: Intent, filled: real, rules: Rules) {
    venue.canRemediate && exists attempt :: 1 <= attempt <= 2 && AttemptVerified(venue, attempt, intent, filled, rules)
  }

  function FilledOf(order: Option<Order>): real {
    if order.Some? && order.value.result.Some? then order.value.result.value.filledBase else 0.0
  }

  ghost function FilledBase(v: View, client: string): real {
    if client in v.orders && v.orders[client].result.Some? then v.orders[client].result.value.filledBase else 0.0
  }

  ghost predicate RemediationReady(v: View, runId: string, intent: Intent) {
    && intent.clientId != "" && InStatus(v, intent.clientId, ProtectiveFailed)
    && v.orders[intent.clientId].intent.symbol == intent.symbol
    && v.orders[intent.clientId].intent.instrument == intent.instrument
    && RemediationIdsFresh(v, runId)
  }

  /** Nothing of this run's remediation was journaled yet; its execution may have been. */
  ghost predicate RemediationIdsFresh(v: View, runId: string) {
    && FlattenId(runId) !in v.orders
    && runId + ":protective-remediated" !in v.applied
    && runId + ":flattening" !in v.applied
    && runId + ":flatten-closed" !in v.applied
    && NoIdWith(v, runId + ":flatten:")
  }

  lemma RemediationNeeds(v: View, runId: string, intent: Intent)
    requires RemediationReady(v, runId, intent)
    ensures Ready(v, runId + ":protective-remediated", intent.clientId, ProtectivePlaced)
    ensures Ready(v, runId + ":flattening", intent.clientId, Flattening)
  {
  }

  lemma FilledIsTracked(v: View, client: string, tracked: Option<Order>)
    requires tracked == if client in v.orders then Some(v.orders[client]) else None
    ensures FilledBase(v, client) == FilledOf(tracked)
  {
  }

  lemma RemediedCases(venue: Venue, intent: Intent, filled: real, rules: Rules)
    ensures ATTEMPTS == 2
    ensures !venue.canRemediate ==> !Remedied(venue, intent, filled, rules)
    ensures (forall a :: 1 <= a < ATTEMPTS + 1 ==> !AttemptVerified(venue, a, intent, filled, rules)) ==>
      !Remedied(venue, intent, filled, rules)
  {
  }

  lemma RemediedBy(venue: Venue, attempt: int, intent: Intent, filled: real, rules: Rules)
    requires venue.canRemediate && 1 <= attempt <= ATTEMPTS && AttemptVerified(venue, attempt, intent, filled, rules)
    ensures Remedied(venue, intent, filled, rules)
  {
  }

  lemma VerifiedCases(venue: Venue, attempt: int, intent: Intent, filled: real, rules: Rules)
    ensures AttemptVerified(venue, attempt, intent, filled, rules) <==>
      (venue.placesProtection(attempt) && venue.reportsProtection(attempt).Some?
       && Satisfied(intent, filled, venue.reportsProtection(attempt).value, rules))
  {
    hide Satisfied, Covered;
    if venue.reportsProtection(attempt).Some? {
      SatisfiedIsCovered(intent, filled, venue.reportsProtection(attempt).value, rules);
    }
  }

  lemma FlatteningIsReady(v: View, w: View, runId: string, intent: Intent)
    requires RemediationReady(v, runId, intent) && Progress(v, w)
    requires Moved(v, w, intent.clientId, Flattening, None) && Uses(v, w, {runId + ":flattening"})
    ensures FlattenReady(w, runId, intent)
  {
    DifferentIds(runId, ":flatten-closed", ":flattening");
    NotFlattenId(runId, ":flattening");
    assert ":flatten:"[8] != ":flattening"[8];
  }

  /** A suffix that does not start an id of the flatten's close order does not make one. */
  lemma NotFlattenId(runId: string, suffix: string)
    ensures runId + ":flatten:" <= runId + suffix ==> ":flatten:" <= suffix
  {
    if runId + ":flatten:" <= runId + suffix {
      assert (runId + suffix)[|runId|..] == suffix;
      assert (runId + ":flatten:")[|runId|..] == ":flatten:";
    }
  }
}
