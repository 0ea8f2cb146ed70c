/** The journal and its store as the program runs them: internal/orders/journal.go over the order
 events of internal/persistence/repository.go. */
module OrderJournal {
  import opened Wrappers
  import opened OrderTypes
  import opened OrderMachine
  import opened OrderLog
  import opened Compaction
  import opened JournalRuns

  /** The order events of the repository state. A failed write keeps the old state. */
  class Repository {
    var log: seq<Event>

    constructor ()
      ensures log == []
    {
      log := [];
    }

    method AppendOrderEvent(event: Event, writable: bool) returns (ok: bool)
      modifies this
      ensures AppendStep(old(log), event, MAX_ORDER_EVENTS, writable, log, ok)
    {
      var i := 0;
      while i < |log|
        invariant 0 <= i <= |log|
        invariant Stored(log, event.id) == Stored(log[i..], event.id)
      {
        assert log[i..][1..] == log[i + 1..];
        if log[i].id == event.id {
          return writable && Equivalent(log[i], event);
        }
        i := i + 1;
      }
      if !writable {
        return false;
      }
      log := CompactOrderEvents(log + [event], MAX_ORDER_EVENTS);
      return true;
    }
  }

  /** One order, updated in place by its events. */
  class OrderRecord {
    const client: string
    const intent: Intent
    var status: Status
    var result: Option<Execution>
    var events: seq<Event>

    constructor (event: Event)
      requires event.intent.Some?
      ensures Snapshot() == Opened(event)
    {
      client, intent := event.client, event.intent.value;
      status, result, events := New, None, [event];
    }

    function Snapshot(): Order
      reads this
    {
      Order(client, status, intent, result, events)
    }

    method Advance(event: Event)
      modifies this
      ensures Snapshot() == Advanced(old(Snapshot()), event)
    {
      status := event.status;
      if event.result.Some? {
        result := event.result;
      }
      events := events + [event];
    }
  }

  class Journal {
    var orders: map<string, OrderRecord>
    var applied: map<string, Event>
    var store: Repository?

    ghost function Objects(): set<object>
      reads this
    {
      {this} + orders.Values + if store != null then {store} else {}
    }

    /** Each record is filed under its own client, and a store agrees with the memory. */
    ghost predicate Valid()
      reads this, Objects()
    {
      && (forall c :: c in orders ==> orders[c].client == c)
      && Coherent(View())
      && (store != null ==> Agrees(View(), store.log))
    }

    ghost function Snapshots(): map<string, Order>
      reads this`orders, orders.Values
    {
      map c | c in orders :: orders[c].Snapshot()
    }

    ghost function View(): View
      reads this, orders.Values
    {
      OrderLog.View(Snapshots(), applied)
    }

    ghost function Log(): seq<Event>
      reads this, store
    {
      if store == null then [] else store.log
    }

    constructor ()
      ensures Valid() && View() == EMPTY_VIEW
      ensures store == null && fresh(Objects())
    {
      orders, applied, store := map[], map[], null;
    }

    method ValidateLocked(event: Event) returns (error: Option<JournalError>)
      ensures error == Validate(View().orders, event)
    {
      if event.client !in orders {
        if event.status != New {
          return Some(NoSuchOrder);
        }
        return if event.intent.None? then Some(MissingIntent) else None;
      }
      if event.status == New {
        return Some(AlreadyExists);
      }
      var current := orders[event.client];
      return if LegalTransition(current.status, event.status) then None else Some(IllegalTransition);
    }

    method UpdateOrder(event: Event)
      requires forall c :: c in orders ==> orders[c].client == c
      requires event.client in orders || event.intent.Some?
      modifies this`orders, orders.Values
      ensures forall c :: c in orders ==> orders[c].client == c
      ensures fresh(orders.Values - old(orders.Values))
      ensures applied == old(applied)
      ensures Snapshots() == old(Snapshots())[event.client :=
        if event.client in old(orders) then Advanced(old(Snapshots())[event.client], event) else Opened(event)]
    {
      if event.client !in orders {
        var order := new OrderRecord(event);
        orders := orders[event.client := order];
      } else {
        orders[event.client].Advance(event);
      }
    }

    method ApplyLocked(event: Event)
      requires forall c :: c in orders ==> orders[c].client == c
      requires Validate(View().orders, event).None?
      modifies this`orders, this`applied, orders.Values
      ensures View() == Materialize(old(View()), event)
      ensures forall c :: c in orders ==> orders[c].client == c
      ensures fresh(orders.Values - old(orders.Values))
    {
      UpdateOrder(event);
      applied := applied[event.id := event];
    }

    method Attach(repository: Repository)
      requires forall c :: c in orders ==> orders[c].client == c
      modifies this`store
      ensures store == repository && orders == old(orders) && View() == old(View())
    {
      store := repository;
    }

    /** ApplyContext: with a store, the write happens before the memory changes. */
    method Apply(event: Event, writable: bool) returns (error: Option<JournalError>)
      requires Valid()
      modifies Objects()
      ensures Valid() && store == old(store) && fresh(Objects() - old(Objects()))
      ensures error == Outcome(old(View()), event, store == null || writable)
      ensures View() == After(old(View()), event, store == null || writable)
      ensures store != null ==>
        ApplyStep(Running(old(View()), old(Log())), event, MAX_ORDER_EVENTS, writable, Running(View(), Log()), error)
    {
      hide Agrees, Coherent, Materialize, Validate, AppendStep;
      if event.id == "" {
        return Some(MissingEventId);
      }
      if event.client == "" {
        return Some(MissingClientId);
      }
      if event.id in applied {
        return if Equivalent(applied[event.id], event) then None else Some(EventIdReused);
      }
      error := ValidateLocked(event);
      if error.Some? {
        return;
      }
      StepsStayCoherent(View(), event, true);
      if store != null {
        ghost var log := store.log;
        var stored := store.AppendOrderEvent(event, writable);
        assert View() == old(View());
        ApplyAgrees(View(), log, event, MAX_ORDER_EVENTS, writable, store.log, stored);
        if !stored {
          return Some(NotPersisted);
        }
      }
      ApplyLocked(event);
      return None;
    }

    /** Get: a detached copy of one order. */
    method Get(client: string) returns (order: Option<Order>)
      ensures order == if client in View().orders then Some(View().orders[client]) else None
    {
      if client !in orders {
        return None;
      }
      return Some(orders[client].Snapshot());
    }

    /** Orders: copies of all orders, newest activity first. */
    method Orders() returns (list: seq<Order>)
      requires Valid()
      ensures Lists(list, View().orders, true, false)
      ensures (set o | o in list) == View().orders.Values
      ensures forall i, j :: 0 <= i < j < |list| ==> LaterActivity(list[i], list[j])
    {
      list := Listed(true, false);
      ListedByActivity(list, View().orders, false);
    }

    /** Unresolved: copies of what a restart must inspect, by client. */
    method Unresolved() returns (list: seq<Order>)
      requires Valid()
      ensures Lists(list, View().orders, false, true)
      ensures forall o :: o in list <==>
        o in View().orders.Values && o.status !in {Closed, Canceled, Rejected, Failed, ProtectivePlaced}
      ensures forall i, j :: 0 <= i < j < |list| ==> ComesFirst(list[i].client, list[j].client)
    {
      list := Listed(false, true);
      ListedByClient(list, View().orders);
    }

    method Listed(newest: bool, open: bool) returns (list: seq<Order>)
      requires Valid()
      ensures Lists(list, View().orders, newest, open)
    {
      list := [];
      var rest := orders.Keys;
      ghost var all := View().orders;
      while rest != {}
        invariant rest <= orders.Keys
        invariant Ordered(list, newest)
        invariant forall o :: o in list ==> o.client in all && all[o.client] == o && o.client !in rest && Wanted(o, open)
        invariant forall c :: c in all && c !in rest && Wanted(all[c], open) ==> all[c] in list
        decreases |rest|
      {
        var client :| client in rest;
        rest := rest - {client};
        var order := orders[client].Snapshot();
        assert order == all[client] && order.client == client;
        if Wanted(order, open) {
          list := InsertOrder(list, order, newest);
        }
      }
    }
  }

  function LatestTs(order: Order): int { if order.events == [] then 0 else order.events[|order.events| - 1].ts }

  /** Newest activity first, or by client; ties go by client. */
  predicate Precedes(newest: bool, a: Order, b: Order) {
    if newest && LatestTs(a) != LatestTs(b) then LatestTs(a) > LatestTs(b) else LexLess(a.client, b.client)
  }

  /** What an unresolved listing shows: neither terminal nor known to be protected. */
  predicate Wanted(order: Order, open: bool) { open ==> !IsTerminal(order.status) && order.status != ProtectivePlaced }

  ghost predicate Ordered(list: seq<Order>, newest: bool) {
    forall i, j :: 0 <= i < j < |list| ==> Precedes(newest, list[i], list[j])
  }

  /** The list shows every wanted order once, in order. */
  ghost predicate Lists(list: seq<Order>, orders: map<string, Order>, newest: bool, open: bool) {
    && Ordered(list, newest)
    && (forall o :: o in list ==> o.client in orders && orders[o.client] == o && Wanted(o, open))
    && (forall c :: c in orders && Wanted(orders[c], open) ==> orders[c] in list)
  }

  /** The last event is later, or as late and of a smaller client id. */
  ghost predicate LaterActivity(a: Order, b: Order) {
    a.events != [] && b.events != [] ==>
      var s, t := a.events[|a.events| - 1].ts, b.events[|b.events| - 1].ts;
      s > t || (s == t && ComesFirst(a.client, b.client))
  }

  lemma ListedByActivity(list: seq<Order>, orders: map<string, Order>, open: bool)
    requires Lists(list, orders, true, open)
    ensures forall i, j :: 0 <= i < j < |list| ==> LaterActivity(list[i], list[j])
    ensures !open ==> (set o | o in list) == orders.Values
  {
    forall i, j | 0 <= i < j < |list| ensures LaterActivity(list[i], list[j]) {
      LexMeans(list[i].client, list[j].client);
      assert Precedes(true, list[i], list[j]);
    }
  }

  lemma ListedByClient(list: seq<Order>, orders: map<string, Order>)
    requires Lists(list, orders, false, true)
    ensures forall i, j :: 0 <= i < j < |list| ==> ComesFirst(list[i].client, list[j].client)
    ensures forall o :: o in list <==> o in orders.Values && o.status !in {Closed, Canceled, Rejected, Failed, ProtectivePlaced}
  {
    forall i, j | 0 <= i < j < |list| ensures ComesFirst(list[i].client, list[j].client) {
      LexMeans(list[i].client, list[j].client);
      assert Precedes(false, list[i], list[j]);
    }
  }

  lemma PrecedesIsTotal(newest: bool, a: Order, b: Order)
    ensures a.client == b.client || Precedes(newest, a, b) || Precedes(newest, b, a)
    ensures !Precedes(newest, a, a)
  {
    LexIsTotal(a.client, b.client);
  }

  lemma PrecedesIsTransitive(newest: bool, a: Order, b: Order, c: Order)
    requires Precedes(newest, a, b) && Precedes(newest, b, c)
    ensures Precedes(newest, a, c)
  {
    if LexLess(a.client, b.client) && LexLess(b.client, c.client) {
      LexIsTransitive(a.client, b.client, c.client);
    }
  }

  /** No order is listed twice. */
  lemma ListedOnce(list: seq<Order>, orders: map<string, Order>, newest: bool, open: bool)
    requires Lists(list, orders, newest, open)
    ensures forall i, j :: 0 <= i < j < |list| ==> list[i].client != list[j].client
  {
    forall i, j | 0 <= i < j < |list| ensures list[i].client != list[j].client {
      assert list[i] in list && list[j] in list;
      PrecedesIsTotal(newest, list[i], list[i]);
      assert Precedes(newest, list[i], list[j]);
    }
  }

  method InsertOrder(list: seq<Order>, order: Order, newest: bool) returns (longer: seq<Order>)
    requires Ordered(list, newest)
    requires forall o :: o in list ==> o.client != order.client
    ensures Ordered(longer, newest)
    ensures forall o :: o in longer <==> o in list || o == order
  {
    var i := |list|;
    while i > 0 && Precedes(newest, order, list[i - 1])
      invariant 0 <= i <= |list|
      invariant forall j :: i <= j < |list| ==> Precedes(newest, order, list[j])
    {
      i := i - 1;
    }
    forall j | 0 <= j < i ensures Precedes(newest, list[j], order) {
      assert list[i - 1] in list;
      PrecedesIsTotal(newest, order, list[i - 1]);
      if j < i - 1 {
        PrecedesIsTransitive(newest, list[j], list[i - 1], order);
      }
    }
    longer := list[..i] + [order] + list[i..];
    InsertedOrders(list, order, i);
  }

  lemma InsertedOrders(list: seq<Order>, order: Order, i: nat)
    requires i <= |list|
    ensures forall o :: o in list[..i] + [order] + list[i..] <==> o in list || o == order
  {
    assert list == list[..i] + list[i..];
  }

  /** Replay: a journal without store takes the events in order and stops at the first error. */
  method ReplayEvents(events: seq<Event>) returns (journal: Journal, error: Option<JournalError>)
    ensures fresh(journal.Objects()) && journal.Valid() && journal.store == null
    ensures error == match Replay(events) { case Ok(_) => None case Err(e) => Some(e) }
    ensures error.None? ==> journal.View() == Replay(events).value
  {
    hide Outcome, After, Coherent, Agrees;
    journal := new Journal();
    var i := 0;
    while i < |events|
      invariant 0 <= i <= |events|
      invariant fresh(journal.Objects()) && journal.Valid() && journal.store == null
      invariant Replay(events[..i]) == Ok(journal.View())
    {
      assert events[..i + 1][..i] == events[..i];
      error := journal.Apply(events[i], true);
      i := i + 1;
      if error.Some? {
        FailedReplayStays(events, i);
        return;
      }
    }
    assert events[..i] == events;
    return journal, None;
  }

  lemma {:induction false} FailedReplayStays(events: seq<Event>, i: nat)
    requires i <= |events| && Replay(events[..i]).Err?
    ensures Replay(events) == Replay(events[..i])
  {
    if i < |events| {
      var n := |events| - 1;
      assert events[..n][..i] == events[..i];
      FailedReplayStays(events[..n], i);
    } else {
      assert events[..i] == events;
    }
  }

  /** NewDurableJournal: the memory after a restart is what the store replays to. */
  method OpenDurable(store: Repository) returns (journal: Journal, error: Option<JournalError>)
    ensures fresh(journal.Objects() - {store})
    ensures Restarted(store.log) == if error.None? then Running(journal.View(), store.log) else Down(store.log)
    ensures Replayable(store.log) ==> error.None? && journal.Valid() && journal.store == store
  {
    journal, error := ReplayEvents(store.log);
    if error.None? && Replayable(store.log) {
      ReplayAgrees(store.log);
    }
    hide Replay, Replayable, Agrees, Coherent;
    if error.None? {
      journal.Attach(store);
    }
  }
}
