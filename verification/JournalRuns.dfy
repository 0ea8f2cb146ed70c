/**
 Runs of the durable journal: an in-memory view and a stored log, changed by events, failed writes,
 compactions, crashes at any point and restarts.
 */
module JournalRuns {
  import opened Wrappers
  import opened OrderTypes
  import opened OrderMachine
  import opened OrderLog
  import opened Compaction

  datatype System = Running(view: View, log: seq<Event>) | Down(log: seq<Event>)

  /** The stored event of an id: the first one in the log. */
  function Stored(log: seq<Event>, id: string): Option<Event> {
    if log == [] then None
    else if log[0].id == id then Some(log[0])
    else Stored(log[1..], id)
  }

  /** The store's append: idempotent by event id, and all or nothing. */
  ghost predicate AppendStep(log: seq<Event>, event: Event, limit: int, writable: bool, after: seq<Event>, ok: bool) {
    match Stored(log, event.id)
    case Some(existing) => after == log && ok == (writable && Equivalent(existing, event))
    case None => ok == writable && if ok then Compacted(log + [event], limit, after) else after == log
  }

  /** ApplyContext: only an event that passes the checks reaches the store, and only a stored one the view. */
  ghost predicate ApplyStep(
    before: System, event: Event, limit: int, writable: bool, after: System, error: Option<JournalError>)
    requires before.Running?
  {
    exists stored ::
      && (if Refusal(before.view, event).None? then AppendStep(before.log, event, limit, writable, after.log, stored)
          else after.log == before.log)
      && error == Outcome(before.view, event, stored)
      && after == Running(After(before.view, event, stored), after.log)
  }

  /** The process dies between storing an event and applying it. */
  ghost predicate CrashAfterAppend(before: System, event: Event, limit: int, after: System)
    requires before.Running?
  {
    && Refusal(before.view, event).None?
    && AppendStep(before.log, event, limit, true, after.log, true)
    && after.Down?
  }

  /** Opening the stored log again; a log that does not replay keeps the system down. */
  function Restarted(log: seq<Event>): System {
    match Replay(log)
    case Ok(view) => Running(view, log)
    case Err(_) => Down(log)
  }

  ghost predicate Next(before: System, after: System, limit: int) {
    match before
    case Running(_, log) =>
      || after == Down(log)
      || (exists event :: CrashAfterAppend(before, event, limit, after))
      || (exists event, writable, error :: ApplyStep(before, event, limit, writable, after, error))
    case Down(log) => after == Restarted(log)
  }

  ghost predicate IsRun(run: seq<System>, limit: int) {
    && run != []
    && run[0] == Down([])
    && forall i :: 0 < i < |run| ==> Next(run[i - 1], run[i], limit)
  }

  /** Every stored event is applied in memory, under its own id. */
  ghost predicate LogIsApplied(log: seq<Event>, applied: map<string, Event>) {
    forall i :: 0 <= i < |log| ==> log[i].id in applied && applied[log[i].id] == log[i]
  }

  /** Replayed orders are the in-memory ones; orders the store forgot are terminal. */
  ghost predicate SameOrders(replayed: map<string, Order>, inMemory: map<string, Order>) {
    && (forall c :: c in replayed ==> c in inMemory && inMemory[c] == replayed[c])
    && (forall c :: c in inMemory && c !in replayed ==> IsTerminal(inMemory[c].status))
  }

  ghost predicate Replayable(log: seq<Event>) { DistinctIds(log) && Replay(log).Ok? }

  ghost predicate Agrees(view: View, log: seq<Event>) {
    && Replayable(log)
    && LogIsApplied(log, view.applied)
    && SameOrders(Replay(log).value.orders, view.orders)
  }

  ghost predicate Recoverable(s: System) {
    && Replayable(s.log)
    && (s.Running? ==> Agrees(s.view, s.log) && Coherent(s.view))
  }

  lemma {:induction false} StoredIsInLog(log: seq<Event>, id: string)
    ensures Stored(log, id).Some? ==> exists i :: 0 <= i < |log| && log[i].id == id && log[i] == Stored(log, id).value
    ensures Stored(log, id).None? ==> forall i :: 0 <= i < |log| ==> log[i].id != id
  {
    if log != [] && log[0].id != id {
      StoredIsInLog(log[1..], id);
      if Stored(log, id).Some? {
        var i :| 0 <= i < |log[1..]| && log[1..][i].id == id && log[1..][i] == Stored(log, id).value;
        assert log[i + 1] == log[1..][i];
      } else {
        assert forall i :: 0 < i < |log| ==> log[i] == log[1..][i - 1];
      }
    }
  }

  /** An event the view has not applied is not in the store either, so its append only fails on a failed write. */
  lemma NewEventIsNotStored(view: View, log: seq<Event>, event: Event)
    requires LogIsApplied(log, view.applied)
    requires event.id !in view.applied
    ensures Stored(log, event.id).None?
    ensures DistinctIds(log) ==> DistinctIds(log + [event])
  {
    StoredIsInLog(log, event.id);
  }

  /** Agreement carries over to a log extended by an event the view takes. */
  lemma AppendAgrees(view: View, log: seq<Event>, event: Event)
    requires Agrees(view, log)
    requires Refusal(view, event).None?
    ensures Agrees(Materialize(view, event), log + [event])
  {
    NewEventIsNotStored(view, log, event);
    LogGrowsApplied(view, log, event);
    ReplayAppliesLog(log);
    assert event.id !in Replay(log).value.applied;
    hide Refusal, Materialize, LogIsApplied, SameOrders, DistinctIds;
    SameOrdersAdvance(Replay(log).value, view, event);
    ReplayExtends(log, event);
  }

  lemma LogGrowsApplied(view: View, log: seq<Event>, event: Event)
    requires LogIsApplied(log, view.applied)
    requires Refusal(view, event).None?
    ensures LogIsApplied(log + [event], Materialize(view, event).applied)
  {
  }

  lemma SameOrdersAdvance(replayed: View, view: View, event: Event)
    requires SameOrders(replayed.orders, view.orders)
    requires event.id !in replayed.applied
    requires Refusal(view, event).None?
    ensures Refusal(replayed, event).None?
    ensures SameOrders(Materialize(replayed, event).orders, Materialize(view, event).orders)
  {
  }

  /** Compacting the log only forgets terminal orders. */
  lemma CompactionAgrees(view: View, log: seq<Event>, limit: int, after: seq<Event>)
    requires Agrees(view, log)
    requires Compacted(log, limit, after)
    ensures Agrees(view, after)
  {
    var remove :| IsRemoval(log, limit, remove) && after == Keep(log, remove);
    CompactionPreservesReplay(log, remove);
    forall c | c in remove {
      RemovedOrdersAreTerminal(log, limit, remove, c);
    }
    forall i | 0 <= i < |after| ensures after[i] in log {
      KeepIsSubsequence(log, remove);
      assert after[i] in after;
    }
  }

  lemma ApplyAgrees(view: View, log: seq<Event>, event: Event, limit: int, writable: bool, after: seq<Event>, ok: bool)
    requires Agrees(view, log)
    requires Refusal(view, event).None?
    requires AppendStep(log, event, limit, writable, after, ok)
    ensures ok == writable
    ensures Agrees(After(view, event, ok), after)
  {
    NewEventIsNotStored(view, log, event);
    if ok {
      AppendAgrees(view, log, event);
      CompactionAgrees(Materialize(view, event), log + [event], limit, after);
    }
  }

  /** A view just replayed agrees with its own log. */
  lemma {:induction false} ReplayAgrees(log: seq<Event>)
    requires Replayable(log)
    ensures Agrees(Replay(log).value, log)
  {
    if log != [] {
      var n := |log| - 1;
      assert DistinctIds(log[..n]);
      NewEventIsApplied(log);
      hide Materialize, Refusal, LogIsApplied, DistinctIds;
      ReplayAgrees(log[..n]);
      LogGrowsApplied(Replay(log[..n]).value, log[..n], log[n]);
      assert log == log[..n] + [log[n]];
    }
  }

  lemma StepStaysRecoverable(before: System, after: System, limit: int)
    requires Recoverable(before)
    requires Next(before, after, limit)
    ensures Recoverable(after)
  {
    match before
    case Down(log) =>
      ReplayAgrees(log);
      ReplayIsCoherent(log);
    case Running(view, log) =>
      if event :| CrashAfterAppend(before, event, limit, after) {
        ApplyAgrees(view, log, event, limit, true, after.log, true);
      } else if event, writable, error :| ApplyStep(before, event, limit, writable, after, error) {
        ApplyStaysRecoverable(before, event, limit, writable, after, error);
      }
  }

  lemma ApplyStaysRecoverable(
    before: System, event: Event, limit: int, writable: bool, after: System, error: Option<JournalError>)
    requires Recoverable(before) && before.Running?
    requires ApplyStep(before, event, limit, writable, after, error)
    ensures Recoverable(after)
    ensures error == Outcome(before.view, event, writable)
    ensures after.Running? && after.view == After(before.view, event, writable)
  {
    var stored :|
      && (if Refusal(before.view, event).None? then AppendStep(before.log, event, limit, writable, after.log, stored)
          else after.log == before.log)
      && error == Outcome(before.view, event, stored)
      && after == Running(After(before.view, event, stored), after.log);
    StepsStayCoherent(before.view, event, stored);
    if Refusal(before.view, event).None? {
      ApplyAgrees(before.view, before.log, event, limit, writable, after.log, stored);
    }
  }

  /**
   In every run, however it mixes events, retries, failed writes, compactions and crashes: the stored
   log replays, the replayed orders equal the in-memory ones, an order missing from the store is
   terminal, and every order's history is a legal life.
   */
  lemma {:induction false} RunsAreRecoverable(run: seq<System>, limit: int, i: nat)
    requires IsRun(run, limit)
    requires i < |run|
    ensures Recoverable(run[i])
  {
    if i > 0 {
      RunsAreRecoverable(run, limit, i - 1);
      StepStaysRecoverable(run[i - 1], run[i], limit);
    }
  }

  /** A crash at any moment of any run is followed by a successful restart into the same open orders. */
  lemma RestartRestoresOpenOrders(run: seq<System>, limit: int, i: nat, client: string)
    requires IsRun(run, limit)
    requires i < |run| && run[i].Running?
    ensures Restarted(run[i].log).Running?
    ensures client in run[i].view.orders && !IsTerminal(run[i].view.orders[client].status) ==>
      && client in Restarted(run[i].log).view.orders
      && Restarted(run[i].log).view.orders[client] == run[i].view.orders[client]
    ensures client !in run[i].view.orders ==> client !in Restarted(run[i].log).view.orders
  {
    RunsAreRecoverable(run, limit, i);
  }

  /** An event stored just before the process died is there after the restart, as if it had been applied. */
  lemma StoredEventSurvives(before: System, event: Event, limit: int, after: System)
    requires Recoverable(before) && before.Running?
    requires CrashAfterAppend(before, event, limit, after)
    ensures Agrees(Materialize(before.view, event), after.log)
    ensures Restarted(after.log).Running?
  {
    ApplyAgrees(before.view, before.log, event, limit, true, after.log, true);
  }

  /** An event whose storing failed leaves no trace, neither in memory nor after a restart. */
  lemma FailedWriteChangesNothing(before: System, event: Event, limit: int, after: System, error: Option<JournalError>)
    requires Recoverable(before) && before.Running?
    requires ApplyStep(before, event, limit, false, after, error)
    ensures after == before
    ensures error.None? ==> Retried(before.view, event)
  {
    ApplyStaysRecoverable(before, event, limit, false, after, error);
    if Refusal(before.view, event).None? {
      NewEventIsNotStored(before.view, before.log, event);
    }
  }
}
