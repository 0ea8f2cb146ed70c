/** The order service of internal/orchestrator/service.go: its journal steps, and recording an execution. */
module OrderService {
  import opened Wrappers
  import opened OrderTypes
  import opened OrderMachine
  import opened OrderLog
  import opened OrderMoves
  import opened ProtectionRules
  import OrderJournal
  import JournalRuns

  datatype Placement = Placed(execution: Execution) | PlacementFailed(unknown: bool)

  datatype Lookup = LookupFailed | NotFound | Found(execution: Execution)

  /** The venue's answers: arbitrary, per client id or per attempt. */
  datatype Venue = Venue(
    place: string -> Placement,
    canRemediate: bool,
    placesProtection: int -> bool,
    reportsProtection: int -> Option<seq<ProtectiveOrder>>,
    positions: Option<seq<Position>>,
    clears: string -> bool,
    finalizes: bool,
    settles: bool,
    canLookup: bool,
    isPaper: bool,
    lookup: string -> Lookup)

  datatype ServiceError =
    | Journaling(error: JournalError)
    | NotReduceOnly | MissingClient | PlacementError
    | PositionsUnavailable | ResidualProtection | NotFilled | NotFlat | NotSettled
    | RemediationExhausted

  class Service {
    const env: Env
    const rules: Rules
    const venue: Venue
    const journal: OrderJournal.Journal
    var frozen: bool

    constructor (env: Env, rules: Rules, venue: Venue, journal: OrderJournal.Journal)
      requires journal.Valid() && journal.store != null
      ensures Valid() && !frozen
      ensures this.env == env && this.rules == rules && this.venue == venue && this.journal == journal
    {
      hide JournalRuns.Agrees, Coherent;
      this.env, this.rules, this.venue, this.journal, frozen := env, rules, venue, journal, false;
    }

    ghost function View(): View
      reads journal, journal.orders.Values
    {
      journal.View()
    }

    ghost predicate Valid()
      reads journal, journal.Objects()
    {
      journal.Valid() && journal.store != null && this !in journal.Objects()
    }

    ghost predicate AllPersist() { forall id :: env.persists(id) }

    /** TransitionContext. */
    method Transition(id: string, client: string, status: Status, result: Option<Execution>, note: string)
      returns (error: Option<JournalError>)
      requires Valid()
      modifies journal.Objects()
      ensures frozen == old(frozen)
      ensures Valid()
      ensures forall o :: o in journal.Objects() ==> o in old(journal.Objects()) || fresh(o)
      ensures Progress(old(View()), View())
      ensures Only(old(View()), View(), {client})
      ensures Uses(old(View()), View(), {id})
      ensures Applies(old(View()), View(), id, client, status)
      ensures var repeated := Retried(old(View()), TransitionEvent(env, id, client, status, result, note));
        && (error.Some? || repeated ==> View() == old(View()))
        && (repeated ==> error.None?)
        && (error.None? && !repeated ==>
            Ready(old(View()), id, client, status) && Moved(old(View()), View(), client, status, result))
      ensures Ready(old(View()), id, client, status) ==>
        if env.persists(id) then error == None && Moved(old(View()), View(), client, status, result)
        else error == Some(NotPersisted) && View() == old(View())
    {
      ghost var v := View();
      var event := TransitionEvent(env, id, client, status, result, note);
      error := journal.Apply(event, env.persists(id));
      EventProgress(v, event, env.persists(id));
      ChangeOrNothing(v, event, env.persists(id));
      if Ready(v, id, client, status) {
        LegalEventMoves(v, event, env.persists(id));
      }
    }

    /** OpenContext. */
    method Open(id: string, intent: Intent) returns (error: Option<JournalError>)
      requires Valid()
      modifies journal.Objects()
      ensures frozen == old(frozen)
      ensures Valid()
      ensures forall o :: o in journal.Objects() ==> o in old(journal.Objects()) || fresh(o)
      ensures Only(old(View()), View(), {intent.clientId})
      ensures Uses(old(View()), View(), {id})
      ensures old(View()).orders.Keys <= View().orders.Keys <= old(View()).orders.Keys + {intent.clientId}
      ensures id != "" && intent.clientId != "" && id !in old(View()).applied && intent.clientId !in old(View()).orders ==>
        if env.persists(id) then error == None && Openings(old(View()), View(), OpenEvent(env, id, intent))
        else error == Some(NotPersisted) && View() == old(View())
    {
      if intent.clientId == "" {
        return Some(MissingClientId);
      }
      ghost var v := View();
      var event := OpenEvent(env, id, intent);
      error := journal.Apply(event, env.persists(id));
      OpenEventOnly(v, event, env.persists(id));
      if id != "" && id !in v.applied && intent.clientId !in v.orders {
        OpenEventOpens(v, event, env.persists(id));
      }
    }

    method IsProtected(intent: Intent, filled: real, orders: seq<ProtectiveOrder>) returns (ok: bool)
      requires Valid()
      ensures Valid()
      ensures View() == old(View()) && journal.Objects() == old(journal.Objects())
      ensures ok == Satisfied(intent, filled, orders, rules)
    {
      ok := ProtectionSatisfied(intent, filled, orders, rules);
    }

    method Freeze()
      requires Valid()
      modifies this
      ensures Valid()
      ensures View() == old(View()) && journal.Objects() == old(journal.Objects())
      ensures frozen
    {
      frozen := true;
    }

    /**
     recordExecution: unless the store refuses a write, a submitted order ends where the report puts it,
     protected exactly if the report satisfies the request; the status table refuses nothing.
     */
    method RecordExecution(runId: string, intent: Intent, execution: Execution) returns (error: Option<JournalError>)
      requires Valid()
      modifies journal.Objects()
      ensures frozen == old(frozen)
      ensures Valid()
      ensures forall o :: o in journal.Objects() ==> o in old(journal.Objects()) || fresh(o)
      ensures Progress(old(View()), View())
      ensures Only(old(View()), View(), {intent.clientId})
      ensures Uses(old(View()), View(), {runId + ":result", runId + ":protective"})
      ensures RecordReady(old(View()), runId, intent) ==>
        && (error == None ==>
            Moved(old(View()), View(), intent.clientId, RecordedStatus(intent, execution, rules), Some(execution)))
        && (error == None ==>
            intent.clientId in View().orders && RecordedAs(View().orders[intent.clientId].status, intent, execution, rules))
        && (error == None || error == Some(NotPersisted))
        && (AllPersist() ==> error == None)
    {
      hide *;
      ghost var v := View();
      var client := intent.clientId;
      LandsLegally(execution);
      ResultIsReady(v, runId, intent, execution);
      DifferentIds(runId, ":result", ":protective");
      RecordedCases(intent, execution, rules);
      AllPersists(runId + ":result");
      AllPersists(runId + ":protective");
      error := Transition(runId + ":result", client, LandingStatus(execution), Some(execution), "");
      ghost var w := View();
      Widen(v, w, runId + ":result", {runId + ":result", runId + ":protective"});
      MovedAsReported(v, w, intent, execution, rules);
      if error.Some? || !OpenedPosition(execution) {
        return;
      }
      var satisfied := IsProtected(intent, execution.filledBase, execution.protectiveOrders);
      if !satisfied && !ExpectsProtection(intent) {
        return;
      }
      var status := if satisfied then ProtectivePlaced else ProtectiveFailed;
      ProtectiveIsReady(v, w, runId, intent, execution, status);
      error := Transition(runId + ":protective", client, status, None, "");
      Chain(v, w, View(), client, runId + ":result", runId + ":protective");
      if RecordReady(v, runId, intent) && error.None? {
        MovedTwice(v, w, View(), client, LandingStatus(execution), Some(execution), status);
      }
      MovedAsReported(v, View(), intent, execution, rules);
    }

    method CurrentOrder(client: string) returns (order: Option<Order>)
      requires Valid()
      ensures Valid()
      ensures View() == old(View()) && journal.Objects() == old(journal.Objects())
      ensures order == if client in View().orders then Some(View().orders[client]) else None
    {
      order := journal.Get(client);
    }

    method AllOrders() returns (list: seq<Order>)
      requires Valid()
      ensures Valid()
      ensures View() == old(View()) && journal.Objects() == old(journal.Objects())
      ensures OrderJournal.Lists(list, View().orders, true, false)
    {
      list := journal.Orders();
    }

    lemma Named()
      requires Valid()
      ensures NamedClients(View())
    {
    }

    lemma IsCoherent()
      requires Valid()
      ensures Coherent(View())
    {
    }

    lemma AllPersists(id: string)
      ensures AllPersist() ==> env.persists(id)
    {
    }
  }

  /** Orders are filed under their own, non-empty client id. */
  ghost predicate NamedClients(v: View) { forall c :: c in v.orders ==> c != "" && v.orders[c].client == c }

  lemma NothingChanged(v: View, clients: set<string>, ids: set<string>)
    ensures Uses(v, v, ids) && Only(v, v, clients)
  {
  }

  lemma UsesMore(u: View, v: View, w: View, ids: set<string>, more: set<string>)
    requires Uses(u, v, ids) && Uses(v, w, more) && more <= ids
    ensures Uses(u, w, ids)
  {
  }

  lemma OnlyOne(u: View, v: View, w: View, client: string)
    requires Only(u, v, {client}) && Only(v, w, {client})
    ensures Only(u, w, {client})
  {
    OnlyChains(u, v, w, {client}, {client});
  }

  // ---- recording an execution ----

  /** A submitted order whose result was not recorded yet. */
  ghost predicate RecordReady(v: View, runId: string, intent: Intent) {
    && intent.clientId != "" && intent.clientId in v.orders && v.orders[intent.clientId].status == Submitting
    && runId + ":result" !in v.applied && runId + ":protective" !in v.applied
  }

  lemma MovedAsReported(v: View, w: View, intent: Intent, execution: Execution, rules: Rules)
    ensures Moved(v, w, intent.clientId, RecordedStatus(intent, execution, rules), Some(execution)) ==>
      intent.clientId in w.orders && RecordedAs(w.orders[intent.clientId].status, intent, execution, rules)
  {
    hide RecordedStatus, RecordedAs;
    RecordedAsReported(intent, execution, rules, RecordedStatus(intent, execution, rules));
  }

  lemma DifferentIds(prefix: string, s: string, t: string)
    requires s != t
    ensures prefix + s != prefix + t
  {
    assert (prefix + s)[|prefix|..] == s && (prefix + t)[|prefix|..] == t;
  }

  lemma LandsLegally(execution: Execution)
    ensures LandingStatus(execution) != New
    ensures LegalTransition(Submitting, LandingStatus(execution))
  {
    assert LandingStatus(execution) in Transitions(Submitting);
  }

  lemma ResultIsReady(v: View, runId: string, intent: Intent, execution: Execution)
    requires LegalTransition(Submitting, LandingStatus(execution))
    ensures RecordReady(v, runId, intent) ==> Ready(v, runId + ":result", intent.clientId, LandingStatus(execution))
  {
  }

  lemma RecordedCases(intent: Intent, execution: Execution, rules: Rules)
    ensures var satisfied := Satisfied(intent, execution.filledBase, execution.protectiveOrders, rules);
      RecordedStatus(intent, execution, rules) ==
        if OpenedPosition(execution) && (satisfied || ExpectsProtection(intent))
        then (if satisfied then ProtectivePlaced else ProtectiveFailed)
        else LandingStatus(execution)
  {
    hide Satisfied;
  }

  lemma OpenedLands(execution: Execution)
    requires OpenedPosition(execution)
    ensures LandingStatus(execution) == execution.status
  {
  }

  lemma ProtectiveIsReady(v: View, w: View, runId: string, intent: Intent, execution: Execution, status: Status)
    requires runId + ":result" != runId + ":protective"
    requires OpenedPosition(execution) && (status == ProtectivePlaced || status == ProtectiveFailed)
    requires Uses(v, w, {runId + ":result"})
    requires RecordReady(v, runId, intent) ==> Moved(v, w, intent.clientId, LandingStatus(execution), Some(execution))
    ensures RecordReady(v, runId, intent) ==> Ready(w, runId + ":protective", intent.clientId, status)
  {
    OpenedLands(execution);
  }

  lemma Widen(v: View, w: View, id: string, ids: set<string>)
    requires Uses(v, w, {id}) && id in ids
    ensures Uses(v, w, ids)
  {
  }

  lemma Chain(u: View, v: View, w: View, client: string, first: string, second: string)
    requires Progress(u, v) && Progress(v, w)
    requires Only(u, v, {client}) && Only(v, w, {client})
    requires Uses(u, v, {first}) && Uses(v, w, {second})
    ensures Progress(u, w) && Only(u, w, {client}) && Uses(u, w, {first, second})
  {
    ProgressChains(u, v, w);
    OnlyChains(u, v, w, {client}, {client});
  }

  lemma MovedTwice(u: View, v: View, w: View, client: string, first: Status, result: Option<Execution>, second: Status)
    requires Moved(u, v, client, first, result) && Moved(v, w, client, second, None)
    ensures Moved(u, w, client, second, result)
  {
  }
}
