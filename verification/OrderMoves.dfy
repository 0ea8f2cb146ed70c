/** What the order lifecycle code needs to know about one journal event: its effect on a view. */
module OrderMoves {
  import opened Wrappers
  import opened OrderTypes
  import opened OrderMachine
  import opened OrderLog

  /** Which event ids the store accepts, and when an event is written. */
  datatype Env = Env(persists: string -> bool, clock: string -> int)

  function TransitionEvent(
    env: Env, id: string, client: string, status: Status, result: Option<Execution>, note: string): Event
  {
    Event(id, client, env.clock(id), status, None, result, note)
  }

  function OpenEvent(env: Env, id: string, intent: Intent): Event {
    Event(id, intent.clientId, env.clock(id), New, Some(intent), None, "")
  }

  /** Orders are neither opened nor lost; their intents stay and their histories only grow. */
  ghost predicate Progress(v: View, w: View) {
    && w.orders.Keys == v.orders.Keys
    && forall c :: c in v.orders ==> w.orders[c].intent == v.orders[c].intent && v.orders[c].events <= w.orders[c].events
  }

  /** Every order but these is as it was. */
  ghost predicate Only(v: View, w: View, clients: set<string>) {
    forall c :: c !in clients ==> (c in w.orders <==> c in v.orders) && (c in v.orders ==> w.orders[c] == v.orders[c])
  }

  /** No event ids but these were used. */
  ghost predicate Uses(v: View, w: View, ids: set<string>) { w.applied.Keys <= v.applied.Keys + ids }

  /** Nothing applied is forgotten; what is new is one event of this id, client and status. */
  ghost predicate Applies(v: View, w: View, id: string, client: string, status: Status) {
    && (forall other :: other in v.applied ==> other in w.applied && w.applied[other] == v.applied[other])
    && (forall other :: other in w.applied && other !in v.applied ==>
        other == id && w.applied[id].client == client && w.applied[id].status == status)
  }

  /** The order takes a status, and a result if there is one. */
  ghost predicate Moved(v: View, w: View, client: string, status: Status, result: Option<Execution>) {
    && client in v.orders && client in w.orders
    && w.orders[client].status == status
    && w.orders[client].intent == v.orders[client].intent
    && w.orders[client].result == if result.Some? then result else v.orders[client].result
  }

  ghost predicate Openings(v: View, w: View, event: Event)
    requires event.intent.Some?
  {
    event.client in w.orders && w.orders[event.client] == Opened(event)
  }

  /** A fresh event that the status table allows. */
  ghost predicate Ready(v: View, id: string, client: string, status: Status) {
    && id != "" && client != "" && id !in v.applied
    && client in v.orders && LegalTransition(v.orders[client].status, status)
  }

  lemma EventProgress(v: View, event: Event, stored: bool)
    requires event.intent.None?
    ensures Progress(v, After(v, event, stored))
    ensures Only(v, After(v, event, stored), {event.client})
    ensures Uses(v, After(v, event, stored), {event.id})
    ensures Applies(v, After(v, event, stored), event.id, event.client, event.status)
  {
  }

  /**
   A status change without an error either repeats an applied event, and then changes nothing, or is a
   fresh legal change that was made; with an error it changes nothing.
   */
  lemma ChangeOrNothing(v: View, event: Event, stored: bool)
    requires event.intent.None?
    ensures Outcome(v, event, stored).Some? || Retried(v, event) ==> After(v, event, stored) == v
    ensures Retried(v, event) ==> Outcome(v, event, stored).None?
    ensures Outcome(v, event, stored).None? && !Retried(v, event) ==>
      && Ready(v, event.id, event.client, event.status)
      && Moved(v, After(v, event, stored), event.client, event.status, event.result)
  {
  }

  /** A fresh event for a legal change is refused by nothing but the store. */
  lemma LegalEventMoves(v: View, event: Event, stored: bool)
    requires Ready(v, event.id, event.client, event.status)
    ensures Outcome(v, event, stored) == if stored then None else Some(NotPersisted)
    ensures stored ==> Moved(v, After(v, event, stored), event.client, event.status, event.result)
    ensures !stored ==> After(v, event, stored) == v
  {
  }

  lemma OpenEventOpens(v: View, event: Event, stored: bool)
    requires event.id != "" && event.client != "" && event.id !in v.applied
    requires event.client !in v.orders && event.status == New && event.intent.Some?
    ensures Outcome(v, event, stored) == if stored then None else Some(NotPersisted)
    ensures stored ==> Openings(v, After(v, event, stored), event)
    ensures !stored ==> After(v, event, stored) == v
  {
  }

  lemma OpenEventOnly(v: View, event: Event, stored: bool)
    ensures Only(v, After(v, event, stored), {event.client})
    ensures Uses(v, After(v, event, stored), {event.id})
    ensures v.orders.Keys <= After(v, event, stored).orders.Keys <= v.orders.Keys + {event.client}
  {
  }

  lemma ProgressChains(u: View, v: View, w: View)
    requires Progress(u, v) && Progress(v, w)
    ensures Progress(u, w)
  {
  }

  lemma OnlyChains(u: View, v: View, w: View, a: set<string>, b: set<string>)
    requires Only(u, v, a) && Only(v, w, b)
    ensures Only(u, w, a + b)
  {
  }
}
