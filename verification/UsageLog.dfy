/** The event list of internal/tokenusage/tracker.go and its per-day totals, as values. */
module UsageLog {
  /** A recorded call; ts counts from the zero time. */
  datatype Event = Event(id: string, ts: int, status: string, inputTokens: int, outputTokens: int, cost: real)

  datatype Totals = Totals(
    calls: nat, successes: nat, errors: nat, budgetRejections: nat,
    inputTokens: int, outputTokens: int, cost: real)

  /** Tokens and cost of one call, or of many. */
  datatype Usage = Usage(tokens: int, cost: real)

  const ZERO_TIME := 0
  const NO_TOTALS := Totals(0, 0, 0, 0, 0, 0, 0.0)

  function Counted(t: Totals, e: Event): Totals {
    Totals(t.calls + 1,
           t.successes + if e.status == "success" then 1 else 0,
           t.errors + if e.status == "success" || e.status == "budget_rejected" then 0 else 1,
           t.budgetRejections + if e.status == "budget_rejected" then 1 else 0,
           t.inputTokens + e.inputTokens, t.outputTokens + e.outputTokens, t.cost + e.cost)
  }

  /** The totals of one day: the fold over its events. */
  function DayTotals(events: seq<Event>, zone: int -> int, day: int): Totals {
    if events == [] then NO_TOTALS
    else
      var n := |events| - 1;
      var rest := DayTotals(events[..n], zone, day);
      if zone(events[n].ts) == day then Counted(rest, events[n]) else rest
  }

  predicate HasDay(events: seq<Event>, zone: int -> int, day: int) {
    exists i :: 0 <= i < |events| && zone(events[i].ts) == day
  }

  /** The daily map is the per-day fold of the events, on exactly the days that have one. */
  ghost predicate Indexes(daily: map<int, Totals>, events: seq<Event>, zone: int -> int) {
    forall day ::
      && (day in daily <==> HasDay(events, zone, day))
      && (day in daily ==> daily[day] == DayTotals(events, zone, day))
  }

  ghost predicate Sorted(events: seq<Event>) {
    forall i, j :: 0 <= i < j < |events| ==> events[i].ts <= events[j].ts
  }

  /** Behind every event that is not later. */
  function InsertSorted(events: seq<Event>, e: Event): seq<Event> {
    if events == [] || events[|events| - 1].ts <= e.ts then events + [e]
    else InsertSorted(events[..|events| - 1], e) + [events[|events| - 1]]
  }

  /** The events that are not older than a time. */
  function Since(events: seq<Event>, before: int): seq<Event> {
    if events == [] then []
    else
      var n := |events| - 1;
      Since(events[..n], before) + if events[n].ts < before then [] else [events[n]]
  }

  function DayUsage(events: seq<Event>, zone: int -> int, day: int): Usage {
    var t := DayTotals(events, zone, day);
    Usage(t.inputTokens + t.outputTokens, t.cost)
  }

  lemma {:induction false} CallsBalance(events: seq<Event>, zone: int -> int, day: int)
    ensures var t := DayTotals(events, zone, day); t.calls == t.successes + t.errors + t.budgetRejections
  {
    if events != [] {
      CallsBalance(events[..|events| - 1], zone, day);
    }
  }

  lemma {:induction false} NoEventNoTotals(events: seq<Event>, zone: int -> int, day: int)
    requires !HasDay(events, zone, day)
    ensures DayTotals(events, zone, day) == NO_TOTALS
  {
    if events != [] {
      var n := |events| - 1;
      assert forall i :: 0 <= i < n ==> events[..n][i] == events[i];
      NoEventNoTotals(events[..n], zone, day);
    }
  }

  /** Where in the list an event is put does not matter for the totals. */
  lemma {:induction false} TotalsOfInserted(events: seq<Event>, i: nat, e: Event, zone: int -> int, day: int)
    requires i <= |events|
    ensures DayTotals(events[..i] + [e] + events[i..], zone, day) ==
      if zone(e.ts) == day then Counted(DayTotals(events, zone, day), e) else DayTotals(events, zone, day)
  {
    var all := events[..i] + [e] + events[i..];
    var n := |events| - 1;
    if i == |events| {
      assert all[..|all| - 1] == events;
    } else {
      TotalsOfInserted(events[..n], i, e, zone, day);
      assert all[..|all| - 1] == events[..n][..i] + [e] + events[..n][i..];
    }
  }

  lemma HasDayOfInserted(events: seq<Event>, i: nat, e: Event, zone: int -> int, day: int)
    requires i <= |events|
    ensures HasDay(events[..i] + [e] + events[i..], zone, day) <==> zone(e.ts) == day || HasDay(events, zone, day)
  {
    var all := events[..i] + [e] + events[i..];
    assert all[i] == e;
    if HasDay(events, zone, day) {
      var k :| 0 <= k < |events| && zone(events[k].ts) == day;
      assert all[if k < i then k else k + 1] == events[k];
    }
    if HasDay(all, zone, day) && zone(e.ts) != day {
      var k :| 0 <= k < |all| && zone(all[k].ts) == day;
      assert events[if k < i then k else k - 1] == all[k];
    }
  }

  lemma {:induction false} InsertSortedPlace(events: seq<Event>, e: Event, i: nat)
    requires i <= |events|
    requires forall k :: 0 <= k < i ==> events[k].ts <= e.ts
    requires forall k :: i <= k < |events| ==> events[k].ts > e.ts
    ensures InsertSorted(events, e) == events[..i] + [e] + events[i..]
  {
    if i == |events| {
      assert events[..i] == events && events[i..] == [];
    } else {
      var n := |events| - 1;
      InsertSortedPlace(events[..n], e, i);
      assert events[..n][..i] == events[..i];
      assert events[i..] == events[..n][i..] + [events[n]];
    }
  }

  /** Inserting keeps the order and adds exactly the one event. */
  lemma InsertSortedKeepsOrder(events: seq<Event>, e: Event, i: nat)
    requires Sorted(events) && i <= |events|
    requires forall k :: 0 <= k < i ==> events[k].ts <= e.ts
    requires forall k :: i <= k < |events| ==> events[k].ts > e.ts
    ensures Sorted(events[..i] + [e] + events[i..])
    ensures multiset(events[..i] + [e] + events[i..]) == multiset(events) + multiset{e}
  {
    assert events == events[..i] + events[i..];
  }

  lemma {:induction false} SinceSuffix(events: seq<Event>, before: int, i: nat)
    requires i <= |events|
    requires forall k :: 0 <= k < i ==> events[k].ts < before
    requires forall k :: i <= k < |events| ==> events[k].ts >= before
    ensures Since(events, before) == events[i..]
  {
    if i < |events| {
      var n := |events| - 1;
      SinceSuffix(events[..n], before, i);
      assert events[i..] == events[..n][i..] + [events[n]];
    } else if i > 0 {
      SinceSuffix(events[..i - 1], before, i - 1);
    }
  }

  lemma {:induction false} InsertSortedAdds(events: seq<Event>, e: Event)
    ensures multiset(InsertSorted(events, e)) == multiset(events) + multiset{e}
  {
    if events != [] && events[|events| - 1].ts > e.ts {
      var n := |events| - 1;
      InsertSortedAdds(events[..n], e);
      assert events == events[..n] + [events[n]];
    }
  }

  /** Exactly the events before the time go. */
  lemma {:induction false} SinceDropsOlder(events: seq<Event>, before: int, x: Event)
    ensures multiset(Since(events, before))[x] == if x.ts < before then 0 else multiset(events)[x]
  {
    if events != [] {
      var n := |events| - 1;
      SinceDropsOlder(events[..n], before, x);
      assert events == events[..n] + [events[n]];
    }
  }

  // ---- usage ----

  predicate NoMore(a: Usage, b: Usage) { a.tokens <= b.tokens && a.cost <= b.cost }

  function Plus(a: Usage, b: Usage): Usage { Usage(a.tokens + b.tokens, a.cost + b.cost) }

  /** Forgetting old events leaves the usage of every day that none of them is on. */
  lemma {:induction false} PruningKeepsDay(events: seq<Event>, before: int, zone: int -> int, day: int)
    requires forall i :: 0 <= i < |events| && zone(events[i].ts) == day ==> events[i].ts >= before
    ensures DayTotals(Since(events, before), zone, day) == DayTotals(events, zone, day)
  {
    if events != [] {
      var n := |events| - 1;
      PruningKeepsDay(events[..n], before, zone, day);
      var kept := Since(events, before);
      if events[n].ts >= before {
        assert kept[..|kept| - 1] == Since(events[..n], before);
      } else {
        assert kept == Since(events[..n], before);
      }
    }
  }

  lemma {:induction false} UsageOfInsertSorted(events: seq<Event>, e: Event, zone: int -> int, day: int)
    ensures DayUsage(InsertSorted(events, e), zone, day) ==
      if zone(e.ts) == day then Plus(DayUsage(events, zone, day), Usage(e.inputTokens + e.outputTokens, e.cost))
      else DayUsage(events, zone, day)
  {
    var all := InsertSorted(events, e);
    var n := |events| - 1;
    if events == [] || events[n].ts <= e.ts {
      assert all[..|all| - 1] == events;
    } else {
      UsageOfInsertSorted(events[..n], e, zone, day);
      assert all[..|all| - 1] == InsertSorted(events[..n], e);
    }
  }

  lemma UsageOfAppended(events: seq<Event>, e: Event, zone: int -> int, day: int)
    ensures DayUsage(events + [e], zone, day) ==
      if zone(e.ts) == day then Plus(DayUsage(events, zone, day), Usage(e.inputTokens + e.outputTokens, e.cost))
      else DayUsage(events, zone, day)
  {
    assert (events + [e])[..|events|] == events;
  }

  // ---- what was used on a day, added up ----

  function TokensOn(events: seq<Event>, zone: int -> int, day: int): int {
    if events == [] then 0
    else (if zone(events[0].ts) == day then events[0].inputTokens + events[0].outputTokens else 0) + TokensOn(events[1..], zone, day)
  }

  function CostOn(events: seq<Event>, zone: int -> int, day: int): real {
    if events == [] then 0.0
    else (if zone(events[0].ts) == day then events[0].cost else 0.0) + CostOn(events[1..], zone, day)
  }

  /** The fold of a day ends with the sums of its tokens and costs. */
  lemma {:induction false} DayUsageIsSum(events: seq<Event>, zone: int -> int, day: int)
    ensures DayUsage(events, zone, day).tokens == TokensOn(events, zone, day)
    ensures DayUsage(events, zone, day).cost == CostOn(events, zone, day)
  {
    if events != [] {
      var n := |events| - 1;
      DayUsageIsSum(events[..n], zone, day);
      SumsFromTheEnd(events, zone, day);
    }
  }

  lemma {:induction false} SumsFromTheEnd(events: seq<Event>, zone: int -> int, day: int)
    requires events != []
    ensures var n := |events| - 1; var last := events[n];
      && TokensOn(events, zone, day) ==
         TokensOn(events[..n], zone, day) + (if zone(last.ts) == day then last.inputTokens + last.outputTokens else 0)
      && CostOn(events, zone, day) == CostOn(events[..n], zone, day) + (if zone(last.ts) == day then last.cost else 0.0)
  {
    var n := |events| - 1;
    if n > 0 {
      SumsFromTheEnd(events[1..], zone, day);
      assert events[1..][..n - 1] == events[..n][1..];
    }
  }

  /** How many calls of a day have a status. */
  function CallsOn(events: seq<Event>, zone: int -> int, day: int, counts: string -> bool): nat {
    if events == [] then 0
    else (if zone(events[0].ts) == day && counts(events[0].status) then 1 else 0) + CallsOn(events[1..], zone, day, counts)
  }

  lemma {:induction false} CallsFromTheEnd(events: seq<Event>, zone: int -> int, day: int, counts: string -> bool)
    requires events != []
    ensures var n := |events| - 1;
      CallsOn(events, zone, day, counts) ==
        CallsOn(events[..n], zone, day, counts) + (if zone(events[n].ts) == day && counts(events[n].status) then 1 else 0)
  {
    var n := |events| - 1;
    if n > 0 {
      CallsFromTheEnd(events[1..], zone, day, counts);
      assert events[1..][..n - 1] == events[..n][1..];
    }
  }

  /** Successes and rejections are counted by their status, and every other status as an error. */
  lemma {:induction false} TotalsCountStatuses(events: seq<Event>, zone: int -> int, day: int)
    ensures var t := DayTotals(events, zone, day);
      && t.calls == CallsOn(events, zone, day, s => true)
      && t.successes == CallsOn(events, zone, day, s => s == "success")
      && t.budgetRejections == CallsOn(events, zone, day, s => s == "budget_rejected")
      && t.errors == CallsOn(events, zone, day, s => s != "success" && s != "budget_rejected")
  {
    if events != [] {
      TotalsCountStatuses(events[..|events| - 1], zone, day);
      CallsFromTheEnd(events, zone, day, s => true);
      CallsFromTheEnd(events, zone, day, s => s == "success");
      CallsFromTheEnd(events, zone, day, s => s == "budget_rejected");
      CallsFromTheEnd(events, zone, day, s => s != "success" && s != "budget_rejected");
    }
  }
}
