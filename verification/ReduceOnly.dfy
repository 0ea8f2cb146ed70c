/** Reduce-only orders: internal/orchestrator/reduce_only.go. */
module ReduceOnly {
  import opened Wrappers
  import opened OrderTypes
  import opened OrderMachine
  import opened OrderLog
  import opened OrderMoves
  import opened ProtectionRules
  import opened OrderService
  import OrderJournal

  /** The journal steps before an order is placed: it is opened and then submitting, or new positions are frozen. */
  method BeginSubmission(service: Service, prefix: string, intent: Intent) returns (error: Option<ServiceError>)
    requires service.Valid()
    modifies service, service.journal.Objects()
    ensures service.Valid()
    ensures forall o :: o in service.journal.Objects() ==> o in old(service.journal.Objects()) || fresh(o)
    ensures old(service.frozen) || error.Some? ==> service.frozen
    ensures Only(old(service.View()), service.View(), {intent.clientId})
    ensures Uses(old(service.View()), service.View(), {prefix + ":open", prefix + ":submit"})
    ensures SubmissionReady(old(service.View()), prefix, intent) ==>
      && (error.None? ==> Submitted(service.View(), prefix, intent))
      && (service.AllPersist() ==> error.None?)
  {
    hide *;
    ghost var v := service.View();
    var client := intent.clientId;
    ghost var ready := SubmissionReady(v, prefix, intent);
    service.AllPersists(prefix + ":open");
    service.AllPersists(prefix + ":submit");
    if ready {
      SubmissionNeeds(v, prefix, intent);
    }
    var failure := service.Open(prefix + ":open", intent);
    ghost var w := service.View();
    Widen(v, w, prefix + ":open", {prefix + ":open", prefix + ":submit"});
    if failure.Some? {
      service.Freeze();
      return Some(Journaling(failure.value));
    }
    if ready {
      OpenIsReady(v, w, service.env, prefix, intent);
    }
    failure := service.Transition(prefix + ":submit", client, Submitting, None, "");
    ghost var x := service.View();
    UsesMore(v, w, x, {prefix + ":open", prefix + ":submit"}, {prefix + ":submit"});
    OnlyOne(v, w, x, client);
    if failure.Some? {
      service.Freeze();
      return Some(Journaling(failure.value));
    }
    if ready {
      SubmitIsReady(v, w, x, prefix, intent);
    }
    return None;
  }

  /** The journal step after a failed placement; one whose outcome is unknown freezes new positions. */
  method FailSubmission(service: Service, prefix: string, intent: Intent, unknown: bool) returns (error: Option<ServiceError>)
    requires service.Valid()
    modifies service, service.journal.Objects()
    ensures service.Valid()
    ensures forall o :: o in service.journal.Objects() ==> o in old(service.journal.Objects()) || fresh(o)
    ensures old(service.frozen) || unknown ==> service.frozen
    ensures error == Some(PlacementError)
    ensures Only(old(service.View()), service.View(), {intent.clientId})
    ensures Uses(old(service.View()), service.View(), {prefix + ":fail"})
    ensures Submitted(old(service.View()), prefix, intent) && (service.AllPersist() || !service.frozen) ==>
      Moved(old(service.View()), service.View(), intent.clientId, if unknown then Unknown else Failed, None)
  {
    hide *;
    if unknown {
      service.Freeze();
    }
    if Submitted(service.View(), prefix, intent) {
      FailureIsReady(service.View(), prefix, intent);
    }
    service.AllPersists(prefix + ":fail");
    var failure := service.Transition(prefix + ":fail", intent.clientId, if unknown then Unknown else Failed, None, "");
    if failure.Some? {
      service.Freeze();
    }
    return Some(PlacementError);
  }

  /**
   ExecuteReduceOnly: opens the close order, submits it and records the answer; a failed submission
   whose outcome is unknown freezes new positions.
   */
  method ExecuteReduceOnly(service: Service, eventPrefix: string, intent: Intent)
    returns (execution: Option<Execution>, error: Option<ServiceError>)
    requires service.Valid()
    modifies service, service.journal.Objects()
    ensures service.Valid()
    ensures forall o :: o in service.journal.Objects() ==> o in old(service.journal.Objects()) || fresh(o)
    ensures old(service.frozen) ==> service.frozen
    ensures Only(old(service.View()), service.View(), {intent.clientId})
    ensures Uses(old(service.View()), service.View(), SubmissionIds(PrefixOr(eventPrefix, intent.clientId)))
    ensures !intent.reduceOnly ==>
      execution == None && error == Some(NotReduceOnly) && service.View() == old(service.View())
    ensures intent.reduceOnly && intent.clientId == "" ==>
      execution == None && error == Some(MissingClient) && service.View() == old(service.View())
    ensures CloseReady(old(service.View()), PrefixOr(eventPrefix, intent.clientId), intent) && service.AllPersist() ==>
      OrderPlaced(service.View(), intent, service.rules, service.venue.place(intent.clientId), execution, error, service.frozen)
  {
    hide *;
    ghost var v := service.View();
    var client := intent.clientId;
    var prefix := PrefixOr(eventPrefix, client);
    ghost var ready := CloseReady(v, prefix, intent) && service.AllPersist();
    NothingChanged(v, {client}, SubmissionIds(prefix));
    SubmissionIdsContain(prefix);
    if ready {
      CloseNeeds(v, prefix, intent);
    }
    if !intent.reduceOnly {
      return None, Some(NotReduceOnly);
    }
    if client == "" {
      return None, Some(MissingClient);
    }
    error := BeginSubmission(service, prefix, intent);
    ghost var x := service.View();
    UsesMore(v, v, x, SubmissionIds(prefix), {prefix + ":open", prefix + ":submit"});
    if error.Some? {
      return None, error;
    }
    if ready {
      RecordIsReady(x, prefix, intent);
    }
    match service.venue.place(client)
    case PlacementFailed(unknown) =>
      error := FailSubmission(service, prefix, intent, unknown);
      ghost var y := service.View();
      UsesMore(v, x, y, SubmissionIds(prefix), {prefix + ":fail"});
      OnlyOne(v, x, y, client);
      if ready {
        FailureRecorded(x, y, prefix, intent, service.rules, unknown, service.frozen);
      }
      return None, error;
    case Placed(report) =>
      var failure := service.RecordExecution(prefix, intent, report);
      ghost var y := service.View();
      UsesMore(v, x, y, SubmissionIds(prefix), {prefix + ":result", prefix + ":protective"});
      OnlyOne(v, x, y, client);
      if failure.Some? {
        service.Freeze();
        return Some(report), Some(Journaling(failure.value));
      }
      if ready {
        ReportRecorded(x, y, prefix, intent, service.rules, report, service.frozen);
      }
      return Some(report), None;
  }

  /**
   CompleteReduceOnly: closes the close order and then every order whose position it closed; no other
   order changes.
   */
  method CompleteReduceOnly(service: Service, eventPrefix: string, client: string, result: Execution)
    returns (error: Option<ServiceError>)
    requires service.Valid()
    modifies service, service.journal.Objects()
    ensures service.Valid()
    ensures forall o :: o in service.journal.Objects() ==> o in old(service.journal.Objects()) || fresh(o)
    ensures old(service.frozen) ==> service.frozen
    ensures Progress(old(service.View()), service.View())
    ensures Only(old(service.View()), service.View(), {client} + Sources(old(service.View()), client))
    ensures error.Some? ==> service.frozen
    ensures SweepReady(old(service.View()), PrefixOr(eventPrefix, client), client) && service.AllPersist() ==>
      error == None && Swept(old(service.View()), service.View(), client)
    ensures SweepReady(old(service.View()), PrefixOr(eventPrefix, client), client) && service.AllPersist() ==>
      Completed(old(service.View()), service.View(), client, result)
  {
    hide *;
    ghost var v := service.View();
    var prefix := PrefixOr(eventPrefix, client);
    ghost var ready := SweepReady(v, prefix, client) && service.AllPersist();
    service.AllPersists(prefix + ":closed");
    if ready {
      CompletionIsReady(v, prefix, client);
    }
    var failure := service.Transition(prefix + ":closed", client, Closed, Some(result), "position flat and protection cleared");
    ghost var w := service.View();
    Subset(v, w, client);
    if failure.Some? {
      service.Freeze();
      return Some(Journaling(failure.value));
    }
    if ready {
      CompletionDone(v, w, prefix, client, result);
    }
    var closed := service.CurrentOrder(client);
    if closed.None? {
      NoCloseOrder(v, w, prefix, client, ready);
      return None;
    }
    SameSources(v, w, client);
    error := Sweep(service, prefix, client, closed.value, ready);
    Together(v, w, service.View(), client, ready, error);
    if ready {
      CompletedByFields(v, w, service.View(), client, result);
    }
  }

  /** The close order has the result; every other order in its market that took a position is closed, and the rest untouched. */
  ghost predicate Completed(v: View, w: View, client: string, result: Execution) {
    client in v.orders && forall c :: c in v.orders ==>
      && c in w.orders
      && if c == client then w.orders[c].status == Closed && w.orders[c].result == Some(result)
         else if v.orders[c].intent.symbol == v.orders[client].intent.symbol
                 && v.orders[c].intent.instrument == v.orders[client].intent.instrument
                 && v.orders[c].status in {Filled, ProtectivePlaced, ProtectiveFailed, Flattening}
         then w.orders[c].status == Closed && w.orders[c].result == v.orders[c].result
         else w.orders[c] == v.orders[c]
  }

  /** The loop over the source orders. */
  method Sweep(service: Service, prefix: string, client: string, closed: Order, ghost ready: bool)
    returns (error: Option<ServiceError>)
    requires service.Valid() && client in service.View().orders && service.View().orders[client] == closed
    requires ready ==> SourceIdsFresh(service.View(), prefix) && service.AllPersist()
    modifies service, service.journal.Objects()
    ensures service.Valid()
    ensures forall o :: o in service.journal.Objects() ==> o in old(service.journal.Objects()) || fresh(o)
    ensures old(service.frozen) || error.Some? ==> service.frozen
    ensures Progress(old(service.View()), service.View())
    ensures Only(old(service.View()), service.View(), Sources(old(service.View()), client))
    ensures ready ==> error == None && SourcesClosed(old(service.View()), service.View(), client)
  {
    hide *;
    ghost var w := service.View();
    var list := service.AllOrders();
    service.Named();
    SweepStarts(w, list, prefix, client);
    var i := 0;
    while i < |list|
      invariant i <= |list|
      invariant service.Valid()
      invariant forall o :: o in service.journal.Objects() ==> o in old(service.journal.Objects()) || fresh(o)
      invariant old(service.frozen) ==> service.frozen
      invariant Sweeping(w, service.View(), list, i, prefix, client)
      invariant ready ==> ClosedUpTo(w, service.View(), list, i, client)
    {
      ghost var x := service.View();
      var source := list[i];
      SourceTest(w, list, i, client, closed);
      if !IsSource(source.client, source, client, closed) {
        SourceSkipped(w, x, list, i, prefix, client);
        i := i + 1;
        continue;
      }
      var id := SourceId(prefix, source.client);
      service.AllPersists(id);
      if ready {
        SourceIsReady(w, x, list, i, prefix, client, closed);
      }
      var failure := service.Transition(id, source.client, Closed, None, "position closed by reduce-only order " + client);
      SourceMoved(w, x, service.View(), list, i, prefix, client, ready && failure.None?);
      if failure.Some? {
        SweepEnds(w, service.View(), list, i + 1, prefix, client);
        service.Freeze();
        return Some(Journaling(failure.value));
      }
      i := i + 1;
    }
    SweepEnds(w, service.View(), list, i, prefix, client);
    if ready {
      AllSourcesClosed(w, service.View(), list, client);
    }
    return None;
  }

  function PrefixOr(eventPrefix: string, client: string): string {
    if eventPrefix == "" then "close:" + client else eventPrefix
  }

  /** The events of one submission. */
  ghost function SubmissionIds(prefix: string): set<string> {
    {prefix + ":open", prefix + ":submit", prefix + ":fail", prefix + ":result", prefix + ":protective"}
  }

  /** An order that does not exist yet, with unused event ids. */
  ghost predicate SubmissionReady(v: View, prefix: string, intent: Intent) {
    && intent.clientId != "" && intent.clientId !in v.orders
    && forall id :: id in SubmissionIds(prefix) ==> id !in v.applied
  }

  ghost predicate CloseReady(v: View, prefix: string, intent: Intent) {
    intent.reduceOnly && SubmissionReady(v, prefix, intent)
  }

  /** A submitting order that neither failed nor has a result yet. */
  ghost predicate Submitted(v: View, prefix: string, intent: Intent) {
    && RecordReady(v, prefix, intent) && v.orders[intent.clientId].intent == intent
    && prefix + ":fail" !in v.applied
  }

  /** The order after its submission was answered. */
  ghost predicate OrderPlaced(
    w: View, intent: Intent, rules: Rules, placement: Placement,
    execution: Option<Execution>, error: Option<ServiceError>, frozen: bool)
  {
    && intent.clientId in w.orders && w.orders[intent.clientId].intent == intent
    && match placement
      case Placed(report) =>
        && execution == Some(report) && error == None
        && w.orders[intent.clientId].status == RecordedStatus(intent, report, rules)
        && RecordedAs(w.orders[intent.clientId].status, intent, report, rules)
        && w.orders[intent.clientId].result == Some(report)
      case PlacementFailed(unknown) =>
        && execution == None && error == Some(PlacementError)
        && w.orders[intent.clientId].status == (if unknown then Unknown else Failed)
        && (unknown ==> frozen)
  }

  lemma CloseNeeds(v: View, prefix: string, intent: Intent)
    requires CloseReady(v, prefix, intent)
    ensures intent.reduceOnly && intent.clientId != ""
    ensures SubmissionReady(v, prefix, intent)
  {
  }

  lemma SubmissionNeeds(v: View, prefix: string, intent: Intent)
    requires SubmissionReady(v, prefix, intent)
    ensures intent.clientId != "" && intent.clientId !in v.orders
    ensures prefix + ":open" != "" && prefix + ":open" !in v.applied
  {
    SubmissionIdsContain(prefix);
  }

  lemma RecordIsReady(x: View, prefix: string, intent: Intent)
    requires Submitted(x, prefix, intent)
    ensures RecordReady(x, prefix, intent)
  {
  }

  lemma FailureIsReady(x: View, prefix: string, intent: Intent)
    requires Submitted(x, prefix, intent)
    ensures Ready(x, prefix + ":fail", intent.clientId, Unknown) && Ready(x, prefix + ":fail", intent.clientId, Failed)
  {
  }

  lemma SubmissionIdsContain(prefix: string)
    ensures {prefix + ":open"} <= SubmissionIds(prefix) && {prefix + ":open", prefix + ":submit"} <= SubmissionIds(prefix)
    ensures {prefix + ":fail"} <= SubmissionIds(prefix) && {prefix + ":result", prefix + ":protective"} <= SubmissionIds(prefix)
  {
  }

  /** The event that closes a source order. */
  function SourceId(prefix: string, client: string): string { prefix + ":source:" + client + ":closed" }

  predicate IsSource(c: string, source: Order, client: string, closed: Order) {
    && c != client
    && source.intent.symbol == closed.intent.symbol && source.intent.instrument == closed.intent.instrument
    && (source.status == Filled || source.status == ProtectivePlaced
        || source.status == ProtectiveFailed || source.status == Flattening)
  }

  /** The orders whose position the close order closes. */
  ghost function Sources(v: View, client: string): set<string> {
    set c | c in v.orders && client in v.orders && IsSource(c, v.orders[c], client, v.orders[client])
  }

  ghost predicate SourceIdsFresh(v: View, prefix: string) {
    forall c :: c in v.orders ==> SourceId(prefix, c) !in v.applied
  }

  ghost predicate SweepReady(v: View, prefix: string, client: string) {
    && Ready(v, prefix + ":closed", client, Closed)
    && SourceIdsFresh(v, prefix)
  }

  ghost predicate SourcesClosed(v: View, w: View, client: string) {
    forall c :: c in Sources(v, client) ==>
      c in w.orders && w.orders[c].status == Closed && w.orders[c].result == v.orders[c].result
  }

  ghost predicate Swept(v: View, w: View, client: string) {
    client in w.orders && w.orders[client].status == Closed && SourcesClosed(v, w, client)
  }

  lemma CompletionIsReady(v: View, prefix: string, client: string)
    requires SweepReady(v, prefix, client)
    ensures Ready(v, prefix + ":closed", client, Closed)
  {
  }

  lemma Subset(v: View, w: View, client: string)
    requires Only(v, w, {client})
    ensures Only(v, w, {client} + Sources(v, client))
  {
  }

  lemma ClosedIdsDiffer(prefix: string, c: string, d: string)
    ensures SourceId(prefix, c) != prefix + ":closed"
    ensures c != d ==> SourceId(prefix, c) != SourceId(prefix, d)
  {
    var p := prefix + ":source:";
    assert SourceId(prefix, c) == p + (c + ":closed") && SourceId(prefix, d) == p + (d + ":closed");
    assert |SourceId(prefix, c)| > |prefix + ":closed"|;
    if c != d {
      assert (c + ":closed")[..|c|] == c && (d + ":closed")[..|d|] == d;
      DifferentIds(p, c + ":closed", d + ":closed");
    }
  }

  lemma CompletionDone(v: View, w: View, prefix: string, client: string, result: Execution)
    requires SweepReady(v, prefix, client) && Progress(v, w)
    requires Only(v, w, {client}) && Uses(v, w, {prefix + ":closed"})
    requires Moved(v, w, client, Closed, Some(result))
    ensures SourceIdsFresh(w, prefix)
    ensures client in w.orders && w.orders[client].status == Closed
  {
    forall c | c in w.orders ensures SourceId(prefix, c) !in w.applied {
      ClosedIdsDiffer(prefix, c, c);
    }
  }

  lemma NoCloseOrder(v: View, w: View, prefix: string, client: string, ready: bool)
    requires client !in w.orders && (ready ==> client in w.orders)
    ensures !ready
  {
  }

  /** Closing the close order itself does not change which orders it closes. */
  lemma SameSources(v: View, w: View, client: string)
    requires Progress(v, w) && Only(v, w, {client})
    ensures Sources(w, client) == Sources(v, client)
  {
    forall c ensures c in Sources(w, client) <==> c in Sources(v, client) {
    }
  }

  lemma Together(u: View, v: View, w: View, client: string, ready: bool, error: Option<ServiceError>)
    requires Progress(u, v) && Progress(v, w) && Only(u, v, {client}) && Only(v, w, Sources(v, client))
    requires Sources(v, client) == Sources(u, client)
    requires ready ==> client in v.orders && v.orders[client].status == Closed && SourcesClosed(v, w, client)
    ensures Progress(u, w) && Only(u, w, {client} + Sources(u, client))
    ensures ready ==> Swept(u, w, client)
  {
    ProgressChains(u, v, w);
    OnlyChains(u, v, w, {client}, Sources(v, client));
    assert client !in Sources(v, client);
  }

  lemma CompletedByFields(u: View, v: View, w: View, client: string, result: Execution)
    requires Moved(u, v, client, Closed, Some(result)) && Only(u, v, {client}) && Progress(u, v)
    requires Only(v, w, Sources(v, client)) && SourcesClosed(v, w, client)
    ensures Completed(u, w, client, result)
  {
    assert client !in Sources(v, client);
    forall c | c in u.orders && c != client ensures v.orders[c] == u.orders[c] && c in v.orders {
      assert c !in {client};
    }
  }

  // ---- the sweep ----

  ghost predicate Sweeping(w: View, x: View, list: seq<Order>, i: nat, prefix: string, client: string) {
    && i <= |list|
    && OrderJournal.Lists(list, w.orders, true, false)
    && Progress(w, x)
    && Only(w, x, Sources(w, client))
    && (forall k :: i <= k < |list| ==> list[k].client in x.orders && x.orders[list[k].client] == list[k])
    && (forall id :: id in x.applied ==> id in w.applied || exists k :: 0 <= k < i && id == SourceId(prefix, list[k].client))
  }

  ghost predicate ClosedUpTo(w: View, x: View, list: seq<Order>, i: nat, client: string) {
    forall k :: 0 <= k < i && k < |list| && list[k].client in Sources(w, client) ==>
      list[k].client in x.orders && x.orders[list[k].client].status == Closed && x.orders[list[k].client].result == list[k].result
  }

  lemma SweepStarts(w: View, list: seq<Order>, prefix: string, client: string)
    requires OrderJournal.Lists(list, w.orders, true, false)
    ensures Sweeping(w, w, list, 0, prefix, client) && ClosedUpTo(w, w, list, 0, client)
  {
    forall k | 0 <= k < |list| ensures list[k].client in w.orders && w.orders[list[k].client] == list[k] {
      assert list[k] in list;
    }
  }

  lemma SourceTest(w: View, list: seq<Order>, i: nat, client: string, closed: Order)
    requires OrderJournal.Lists(list, w.orders, true, false) && i < |list|
    requires client in w.orders && w.orders[client] == closed
    ensures list[i].client in Sources(w, client) <==> IsSource(list[i].client, list[i], client, closed)
  {
    assert list[i] in list;
  }

  lemma SourceSkipped(w: View, x: View, list: seq<Order>, i: nat, prefix: string, client: string)
    requires Sweeping(w, x, list, i, prefix, client) && i < |list|
    requires list[i].client !in Sources(w, client)
    ensures Sweeping(w, x, list, i + 1, prefix, client)
    ensures ClosedUpTo(w, x, list, i, client) ==> ClosedUpTo(w, x, list, i + 1, client)
  {
    hide Sources, OrderJournal.Lists, Progress, Only, SourceId;
  }

  lemma SourceIsReady(w: View, x: View, list: seq<Order>, i: nat, prefix: string, client: string, closed: Order)
    requires Sweeping(w, x, list, i, prefix, client) && i < |list|
    requires SourceIdsFresh(w, prefix) && NamedClients(w)
    requires IsSource(list[i].client, list[i], client, closed)
    ensures Ready(x, SourceId(prefix, list[i].client), list[i].client, Closed)
  {
    hide Progress, Only, Sources;
    var c := list[i].client;
    assert list[i] in list;
    OrderJournal.ListedOnce(list, w.orders, true, false);
    forall k | 0 <= k < i ensures SourceId(prefix, list[k].client) != SourceId(prefix, c) {
      ClosedIdsDiffer(prefix, list[k].client, c);
    }
  }

  lemma SourceMoved(w: View, x: View, y: View, list: seq<Order>, i: nat, prefix: string, client: string, moved: bool)
    requires Sweeping(w, x, list, i, prefix, client) && i < |list| && list[i].client in Sources(w, client)
    requires Progress(x, y) && Only(x, y, {list[i].client}) && Uses(x, y, {SourceId(prefix, list[i].client)})
    requires moved ==> Moved(x, y, list[i].client, Closed, None)
    ensures Sweeping(w, y, list, i + 1, prefix, client)
    ensures moved && ClosedUpTo(w, x, list, i, client) ==> ClosedUpTo(w, y, list, i + 1, client)
  {
    hide Sources, Moved, IsSource, SourceId, OrderJournal.Lists, Progress, Only;
    SweepBasis(w, x, list, i, prefix, client);
    ProgressChains(w, x, y);
    OnlyChains(w, x, y, Sources(w, client), {list[i].client});
    assert Sources(w, client) + {list[i].client} == Sources(w, client);
    RestUntouched(w, x, y, list, i);
    if moved {
      NowClosed(x, y, list[i].client);
    }
  }

  lemma SweepBasis(w: View, x: View, list: seq<Order>, i: nat, prefix: string, client: string)
    requires Sweeping(w, x, list, i, prefix, client)
    ensures OrderJournal.Lists(list, w.orders, true, false) && Progress(w, x) && Only(w, x, Sources(w, client))
  {
    hide OrderJournal.Lists, Progress, Only, Sources;
  }

  lemma NowClosed(x: View, y: View, c: string)
    requires Moved(x, y, c, Closed, None)
    ensures c in y.orders && y.orders[c].status == Closed && y.orders[c].result == x.orders[c].result
  {
  }

  lemma RestUntouched(w: View, x: View, y: View, list: seq<Order>, i: nat)
    requires OrderJournal.Lists(list, w.orders, true, false) && i < |list|
    requires Only(x, y, {list[i].client})
    ensures forall k :: 0 <= k < |list| && k != i ==>
      (list[k].client in y.orders <==> list[k].client in x.orders)
      && (list[k].client in x.orders ==> y.orders[list[k].client] == x.orders[list[k].client])
  {
    OrderJournal.ListedOnce(list, w.orders, true, false);
    forall k | 0 <= k < |list| && k != i ensures list[k].client != list[i].client {
      assert k < i ==> list[k].client != list[i].client;
    }
  }

  lemma SweepEnds(w: View, x: View, list: seq<Order>, i: nat, prefix: string, client: string)
    requires Sweeping(w, x, list, i, prefix, client)
    ensures Progress(w, x) && Only(w, x, Sources(w, client))
  {
  }

  lemma AllSourcesClosed(w: View, x: View, list: seq<Order>, client: string)
    requires OrderJournal.Lists(list, w.orders, true, false) && NamedClients(w)
    requires ClosedUpTo(w, x, list, |list|, client)
    ensures SourcesClosed(w, x, client)
  {
    forall c | c in Sources(w, client)
      ensures c in x.orders && x.orders[c].status == Closed && x.orders[c].result == w.orders[c].result
    {
      assert OrderJournal.Wanted(w.orders[c], false);
      assert w.orders[c] in list;
      var k :| 0 <= k < |list| && list[k] == w.orders[c];
    }
  }

  lemma OpenIsReady(v: View, w: View, env: Env, prefix: string, intent: Intent)
    requires SubmissionReady(v, prefix, intent)
    requires Openings(v, w, OpenEvent(env, prefix + ":open", intent)) && Uses(v, w, {prefix + ":open"})
    ensures Ready(w, prefix + ":submit", intent.clientId, Submitting)
    ensures intent.clientId in w.orders && w.orders[intent.clientId].intent == intent
  {
    DifferentIds(prefix, ":open", ":submit");
  }

  lemma SubmitIsReady(v: View, w: View, x: View, prefix: string, intent: Intent)
    requires SubmissionReady(v, prefix, intent)
    requires Uses(v, w, {prefix + ":open"}) && Uses(w, x, {prefix + ":submit"})
    requires Moved(w, x, intent.clientId, Submitting, None) && w.orders[intent.clientId].intent == intent
    ensures Submitted(x, prefix, intent)
  {
    forall s | s in {":fail", ":result", ":protective"}
      ensures prefix + s != prefix + ":open" && prefix + s != prefix + ":submit"
    {
      DifferentIds(prefix, s, ":open");
      DifferentIds(prefix, s, ":submit");
    }
    assert prefix + ":fail" in SubmissionIds(prefix) && prefix + ":result" in SubmissionIds(prefix);
    assert prefix + ":protective" in SubmissionIds(prefix);
  }

  lemma FailureRecorded(x: View, y: View, prefix: string, intent: Intent, rules: Rules, unknown: bool, frozen: bool)
    requires Submitted(x, prefix, intent)
    requires Moved(x, y, intent.clientId, if unknown then Unknown else Failed, None) && (unknown ==> frozen)
    ensures OrderPlaced(y, intent, rules, PlacementFailed(unknown), None, Some(PlacementError), frozen)
  {
  }

  lemma ReportRecorded(x: View, y: View, prefix: string, intent: Intent, rules: Rules, report: Execution, frozen: bool)
    requires Submitted(x, prefix, intent)
    requires Moved(x, y, intent.clientId, RecordedStatus(intent, report, rules), Some(report))
    ensures OrderPlaced(y, intent, rules, Placed(report), Some(report), None, frozen)
  {
    hide RecordedStatus, RecordedAs;
    RecordedAsReported(intent, report, rules, RecordedStatus(intent, report, rules));
  }
}
