/**
 The event-sourced order view of internal/orders/journal.go as values: what one event does to the
 materialized orders, and what replaying a whole log of events builds.
 */
module OrderLog {
  import opened Wrappers
  import opened OrderTypes
  import opened OrderMachine

  datatype Event = Event(
    id: string,
    client: string,
    ts: int,
    status: Status,
    intent: Option<Intent>,
    result: Option<Execution>,
    note: string)

  datatype Order = Order(
    client: string,
    status: Status,
    intent: Intent,
    result: Option<Execution>,
    events: seq<Event>)

  datatype View = View(orders: map<string, Order>, applied: map<string, Event>)

  datatype JournalError =
    | MissingEventId
    | MissingClientId
    | EventIdReused
    | NoSuchOrder
    | MissingIntent
    | AlreadyExists
    | IllegalTransition
    | NotPersisted

  const EMPTY_VIEW := View(map[], map[])

  /** Retries carry a fresh timestamp, so it is not part of an event's identity. */
  predicate Equivalent(a: Event, b: Event) { a.(ts := 0) == b.(ts := 0) }

  /** The checks on a new event, in the journal's order. */
  function Validate(orders: map<string, Order>, event: Event): Option<JournalError> {
    if event.client !in orders then
      if event.status != New then Some(NoSuchOrder)
      else if event.intent.None? then Some(MissingIntent)
      else None
    else if event.status == New then Some(AlreadyExists)
    else if LegalTransition(orders[event.client].status, event.status) then None
    else Some(IllegalTransition)
  }

  function Opened(event: Event): Order
    requires event.intent.Some?
  {
    Order(event.client, New, event.intent.value, None, [event])
  }

  function Advanced(order: Order, event: Event): Order {
    order.(status := event.status,
           result := if event.result.Some? then event.result else order.result,
           events := order.events + [event])
  }

  /** The view after a valid event. */
  function Materialize(view: View, event: Event): View
    requires Validate(view.orders, event).None?
  {
    var order := if event.client in view.orders then Advanced(view.orders[event.client], event) else Opened(event);
    View(view.orders[event.client := order], view.applied[event.id := event])
  }

  /** What stops an event before the store is asked: None if it is new and valid. */
  function Refusal(view: View, event: Event): Option<JournalError> {
    if event.id == "" then Some(MissingEventId)
    else if event.client == "" then Some(MissingClientId)
    else if event.id in view.applied then Some(EventIdReused)
    else Validate(view.orders, event)
  }

  /** The event repeats one that was applied before. */
  predicate Retried(view: View, event: Event) {
    && event.id != "" && event.client != ""
    && event.id in view.applied && Equivalent(view.applied[event.id], event)
  }

  /** What applying an event returns, given whether the store takes it. */
  function Outcome(view: View, event: Event, stored: bool): Option<JournalError> {
    if Retried(view, event) then None
    else if Refusal(view, event).Some? then Refusal(view, event)
    else if stored then None
    else Some(NotPersisted)
  }

  /** The view after applying an event: nothing but a new, valid and stored event changes it. */
  function After(view: View, event: Event, stored: bool): View {
    if Refusal(view, event).None? && stored then Materialize(view, event) else view
  }

  /** The view a log builds; the first refused event fails the whole replay. */
  function Replay(log: seq<Event>): Result<View, JournalError> {
    if log == [] then Ok(EMPTY_VIEW)
    else
      var n := |log| - 1;
      match Replay(log[..n])
      case Err(e) => Err(e)
      case Ok(view) =>
        match Outcome(view, log[n], true)
        case Some(e) => Err(e)
        case None => Ok(After(view, log[n], true))
  }

  /** The events of one client, in log order. */
  function ClientEvents(log: seq<Event>, client: string): seq<Event> {
    if log == [] then []
    else
      var n := |log| - 1;
      ClientEvents(log[..n], client) + if log[n].client == client then [log[n]] else []
  }

  ghost predicate DistinctIds(log: seq<Event>) {
    forall i, j :: 0 <= i < j < |log| ==> log[i].id != log[j].id
  }

  function Statuses(events: seq<Event>): seq<Status> {
    seq(|events|, i requires 0 <= i < |events| => events[i].status)
  }

  /** Every order is the fold of its own events, which start with New and only change legally. */
  ghost predicate CoherentOrder(order: Order, client: string, applied: map<string, Event>) {
    && order.client == client && client != ""
    && LegalHistory(Statuses(order.events))
    && order.status == order.events[|order.events| - 1].status
    && forall e :: e in order.events ==> e.client == client && e.id in applied && applied[e.id] == e
  }

  /** Every applied event has its own id and is in the history of its client's order. */
  ghost predicate AppliedInHistory(view: View) {
    forall id :: id in view.applied ==>
      && view.applied[id].id == id && view.applied[id].client in view.orders
      && view.applied[id] in view.orders[view.applied[id].client].events
  }

  ghost predicate Coherent(view: View) {
    && (forall c :: c in view.orders ==> CoherentOrder(view.orders[c], c, view.applied))
    && AppliedInHistory(view)
  }

  lemma AppliedStaysInHistory(view: View, event: Event)
    requires AppliedInHistory(view) && Validate(view.orders, event).None?
    ensures AppliedInHistory(Materialize(view, event))
  {
    var after := Materialize(view, event);
    assert event in after.orders[event.client].events by {
      assert after.orders[event.client].events[|after.orders[event.client].events| - 1] == event;
    }
    forall id | id in view.applied && id != event.id
      ensures after.applied[id] in after.orders[after.applied[id].client].events
    {
      assert view.orders[view.applied[id].client].events <= after.orders[view.applied[id].client].events;
    }
  }

  lemma AdvancedIsCoherent(order: Order, event: Event, applied: map<string, Event>)
    requires CoherentOrder(order, event.client, applied)
    requires event.id !in applied
    requires LegalTransition(order.status, event.status)
    ensures CoherentOrder(Advanced(order, event), event.client, applied[event.id := event])
  {
    var after := Advanced(order, event);
    assert Statuses(after.events) == Statuses(order.events) + [event.status];
  }

  /** No event, valid or not, stored or not, leaves an order whose history breaks the status table. */
  lemma StepsStayCoherent(view: View, event: Event, stored: bool)
    requires Coherent(view)
    ensures Coherent(After(view, event, stored))
  {
    if Refusal(view, event).None? && stored {
      var after := Materialize(view, event);
      AppliedStaysInHistory(view, event);
      forall c | c in after.orders ensures CoherentOrder(after.orders[c], c, after.applied) {
        if c == event.client && c in view.orders {
          AdvancedIsCoherent(view.orders[c], event, view.applied);
        } else if c == event.client {
          assert Statuses([event]) == [New];
        } else {
          assert CoherentOrder(view.orders[c], c, view.applied);
        }
      }
    }
  }

  lemma ReplayExtends(log: seq<Event>, event: Event)
    requires Replay(log).Ok? && Refusal(Replay(log).value, event).None?
    ensures Replay(log + [event]) == Ok(Materialize(Replay(log).value, event))
  {
    assert (log + [event])[..|log|] == log;
  }

  lemma {:induction false} ReplayIsCoherent(log: seq<Event>)
    requires Replay(log).Ok?
    ensures Coherent(Replay(log).value)
  {
    if log != [] {
      var n := |log| - 1;
      ReplayIsCoherent(log[..n]);
      StepsStayCoherent(Replay(log[..n]).value, log[n], true);
    }
  }

  /** A replayed log has applied exactly the ids it holds. */
  lemma {:induction false} ReplayAppliesLog(log: seq<Event>)
    requires Replay(log).Ok?
    ensures forall id :: id in Replay(log).value.applied <==> exists i :: 0 <= i < |log| && log[i].id == id
  {
    if log != [] {
      var n := |log| - 1;
      ReplayAppliesLog(log[..n]);
      var before, after := Replay(log[..n]).value.applied, Replay(log).value.applied;
      forall id ensures id in after <==> exists i :: 0 <= i < |log| && log[i].id == id {
        if id in before {
          var i :| 0 <= i < n && log[..n][i].id == id;
          assert log[i].id == id;
        }
        if i :| 0 <= i < n && log[i].id == id {
          assert log[..n][i].id == id;
        }
        assert log[n].id in after;
      }
    }
  }

  /** In a log of distinct ids no event is skipped as a retry. */
  lemma NewEventIsApplied(log: seq<Event>)
    requires log != [] && DistinctIds(log) && Replay(log).Ok?
    ensures Replay(log[..|log| - 1]).Ok?
    ensures Refusal(Replay(log[..|log| - 1]).value, log[|log| - 1]).None?
    ensures Replay(log).value == Materialize(Replay(log[..|log| - 1]).value, log[|log| - 1])
  {
    var n := |log| - 1;
    ReplayAppliesLog(log[..n]);
  }

  /**
   A replayable log of distinct ids holds every order's history whole: an order exists exactly if it
   has events, its history is the sub-sequence of its events, and its status is that of the last one.
   */
  lemma {:induction false} ReplayKeepsHistories(log: seq<Event>, client: string)
    requires DistinctIds(log) && Replay(log).Ok?
    ensures client in Replay(log).value.orders <==> ClientEvents(log, client) != []
    ensures client in Replay(log).value.orders ==>
      && Replay(log).value.orders[client].events == ClientEvents(log, client)
      && Replay(log).value.orders[client].status == ClientEvents(log, client)[|ClientEvents(log, client)| - 1].status
  {
    if log != [] {
      NewEventIsApplied(log);
      ReplayKeepsHistories(log[..|log| - 1], client);
    }
  }

  /** Reading an event again later, under any timestamp, changes nothing. */
  lemma RetryIsIgnored(log: seq<Event>, event: Event)
    requires Replay(log).Ok?
    requires Retried(Replay(log).value, event)
    ensures Replay(log + [event]) == Replay(log)
  {
    assert (log + [event])[..|log|] == log;
  }
}
