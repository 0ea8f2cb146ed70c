/** The tracker of internal/tokenusage/tracker.go: sorted events, an incrementally kept daily index,
 and reservations, all changed in place under one mutex. */
module TokenUsage {
  import opened Wrappers
  import opened UsageLog
  import opened UsageBudget

  /** sort.Search: the first position from which a monotone test holds. */
  method Search(events: seq<Event>, test: Event -> bool) returns (index: nat)
    requires forall i, j :: 0 <= i < j < |events| && test(events[i]) ==> test(events[j])
    ensures index <= |events|
    ensures forall k :: 0 <= k < index ==> !test(events[k])
    ensures forall k :: index <= k < |events| ==> test(events[k])
  {
    var i, j := 0, |events|;
    while i < j
      invariant 0 <= i <= j <= |events|
      invariant forall k :: 0 <= k < i ==> !test(events[k])
      invariant forall k :: j <= k < |events| ==> test(events[k])
    {
      var h := (i + j) / 2;
      if !test(events[h]) {
        i := h + 1;
      } else {
        j := h;
      }
    }
    return i;
  }

  /** The loaded events that count: with an id and a time, and the first of each id. */
  predicate Usable(events: seq<Event>, i: nat)
    requires i < |events|
  {
    && events[i].id != "" && events[i].ts != ZERO_TIME
    && forall k :: 0 <= k < i && events[k].ts != ZERO_TIME ==> events[k].id != events[i].id
  }

  function UsableEvents(events: seq<Event>): seq<Event> {
    if events == [] then []
    else UsableEvents(events[..|events| - 1]) + if Usable(events, |events| - 1) then [events[|events| - 1]] else []
  }

  lemma UsablePrefix(events: seq<Event>, n: nat, i: nat)
    requires i < n <= |events|
    ensures Usable(events[..n], i) <==> Usable(events, i)
  {
    assert forall k :: 0 <= k < n ==> events[..n][k] == events[k];
  }

  /** The loop of validatedEvents. */
  method SelectUsable(events: seq<Event>) returns (result: seq<Event>)
    ensures result == UsableEvents(events)
  {
    result := [];
    var seen := {};
    var i := 0;
    while i < |events|
      invariant 0 <= i <= |events|
      invariant forall k :: 0 <= k < i && events[k].id != "" && events[k].ts != ZERO_TIME ==> events[k].id in seen
      invariant forall id :: id in seen ==> exists k :: 0 <= k < i && events[k].id == id && events[k].ts != ZERO_TIME
      invariant result == UsableEvents(events[..i])
    {
      var event := events[i];
      assert events[..i + 1][..i] == events[..i];
      UsablePrefix(events, i + 1, i);
      if event.id != "" && event.ts != ZERO_TIME && event.id !in seen {
        result := result + [event];
        seen := seen + {event.id};
      }
      i := i + 1;
    }
    assert events[..i] == events;
  }

  /** The sort of validatedEvents. */
  method SortByTime(events: seq<Event>) returns (sorted: seq<Event>)
    ensures Sorted(sorted) && multiset(sorted) == multiset(events)
  {
    sorted := [];
    var i := 0;
    while i < |events|
      invariant 0 <= i <= |events|
      invariant Sorted(sorted) && multiset(sorted) == multiset(events[..i])
    {
      var place := PlaceFor(sorted, events[i]);
      InsertSortedKeepsOrder(sorted, events[i], place);
      sorted := sorted[..place] + [events[i]] + sorted[place..];
      assert events[..i + 1] == events[..i] + [events[i]];
      i := i + 1;
    }
    assert events[..i] == events;
  }

  /** Behind the last event that is not later. */
  method PlaceFor(events: seq<Event>, event: Event) returns (place: nat)
    requires Sorted(events)
    ensures place <= |events|
    ensures forall k :: 0 <= k < place ==> events[k].ts <= event.ts
    ensures forall k :: place <= k < |events| ==> events[k].ts > event.ts
  {
    place := Search(events, (e: Event) => e.ts > event.ts);
  }

  class Tracker {
    var events: seq<Event>
    var daily: map<int, Totals>
    var reservations: Reservations
    var pausedDay: Option<int>
    var pausedAlerts: set<int>
    var nextPrune: int
    const config: Config

    ghost function State(): Tracking
      reads this
    {
      Tracking(events, reservations, pausedDay, pausedAlerts, nextPrune)
    }

    /** The events are in order, and the daily map is their per-day fold. */
    ghost predicate Valid()
      reads this
    {
      Sorted(events) && Indexes(daily, events, config.zone)
    }

    constructor (config: Config, loaded: seq<Event>, now: int)
      ensures Valid()
      ensures this.config == config
      ensures multiset(events) == multiset(UsableEvents(loaded))
      ensures reservations == map[] && pausedDay == None && pausedAlerts == {} && nextPrune == now + HOUR
    {
      this.config := config;
      reservations, pausedDay, pausedAlerts, nextPrune, daily := map[], None, {}, now + HOUR, map[];
      events := [];
      new;
      var usable := SelectUsable(loaded);
      events := SortByTime(usable);
      RebuildDaily();
    }

    /** addDailyLocked: one more event in its day's totals. */
    method AddDaily(event: Event)
      modifies this`daily
      ensures var day := config.zone(event.ts);
        daily == old(daily)[day := Counted(if day in old(daily) then old(daily)[day] else NO_TOTALS, event)]
    {
      var day := config.zone(event.ts);
      var totals := if day in daily then daily[day] else NO_TOTALS;
      daily := daily[day := Counted(totals, event)];
    }

    /** rebuildDailyLocked: the fold from nothing; alerts of days without events are forgotten. */
    method RebuildDaily()
      modifies this`daily, this`pausedAlerts
      ensures Indexes(daily, events, config.zone)
      ensures pausedAlerts == set d | d in old(pausedAlerts) && (HasDay(events, config.zone, d) || Some(d) == pausedDay)
    {
      daily := map[];
      var i := 0;
      while i < |events|
        invariant 0 <= i <= |events|
        invariant Indexes(daily, events[..i], config.zone)
        modifies this`daily
      {
        AddedToIndex(daily, events[..i], i, events[i], config.zone);
        assert events[..i][..i] + [events[i]] + events[..i][i..] == events[..i + 1];
        AddDaily(events[i]);
        i := i + 1;
      }
      assert events[..i] == events;
      assert forall d :: d in daily <==> HasDay(events, config.zone, d);
      pausedAlerts := set d | d in pausedAlerts && (d in daily || Some(d) == pausedDay);
    }

    /** insertEventLocked: appends, or makes room behind the last event that is not later. */
    method InsertEvent(event: Event) returns (ghost index: nat)
      requires Sorted(events)
      modifies this`events
      ensures Sorted(events) && multiset(events) == multiset(old(events)) + multiset{event}
      ensures events == InsertSorted(old(events), event)
      ensures index <= |old(events)| && events == old(events)[..index] + [event] + old(events)[index..]
    {
      hide InsertSorted, Sorted;
      index := |events|;
      if |events| > 0 && events[|events| - 1].ts > event.ts {
        var place := PlaceFor(events, event);
        index := place;
        Inserted(events, event, place);
        events := events[..place] + [event] + events[place..];
      } else {
        LatestIsLast(events, event);
        Inserted(events, event, |events|);
        assert events[..index] + [event] + events[index..] == events + [event];
        events := events + [event];
      }
    }

    /** pruneMemoryLocked: drops the events before a time, and nothing else. */
    method PruneMemory(before: int)
      requires Sorted(events)
      modifies this`events, this`daily, this`pausedAlerts
      ensures Valid() && events == Since(old(events), before)
      ensures pausedAlerts == set d | d in old(pausedAlerts) && (HasDay(events, config.zone, d) || Some(d) == pausedDay)
    {
      var start := Search(events, (e: Event) => e.ts >= before);
      SinceSuffix(events, before, start);
      if start > 0 {
        events := events[start..];
      }
      RebuildDaily();
    }

    /** summaryLocked: the day's usage from the index. */
    method Used(day: int) returns (used: Usage)
      requires Valid()
      ensures used == DayUsage(events, config.zone, day)
    {
      var totals := if day in daily then daily[day] else NO_TOTALS;
      if day !in daily {
        NoEventNoTotals(events, config.zone, day);
      }
      return Usage(totals.inputTokens + totals.outputTokens, totals.cost);
    }

    /** The first loop of Reserve. */
    method ForgetOtherDays(day: int)
      modifies this`reservations
      ensures reservations == OnDay(old(reservations), day)
    {
      ghost var before := reservations;
      var rest := reservations.Keys;
      while rest != {}
        invariant rest <= before.Keys
        invariant reservations == map id | id in before && (id in rest || before[id].day == day) :: before[id]
        decreases |rest|
      {
        var id :| id in rest;
        rest := rest - {id};
        if reservations[id].day != day {
          reservations := reservations - {id};
        }
      }
    }

    /** The second loop of Reserve. */
    method Reserved(day: int) returns (reserved: Usage)
      requires forall id :: id in reservations ==> reservations[id].day == day
      ensures reserved == Total(reservations)
    {
      reserved := Usage(0, 0.0);
      var rest := reservations;
      while rest != map[]
        invariant forall id :: id in rest ==> id in reservations && rest[id] == reservations[id]
        invariant Total(reservations) == Plus(reserved, Total(rest))
        decreases |rest|
      {
        var id :| id in rest;
        TotalWithout(rest, id);
        if rest[id].day == day {
          reserved := Plus(reserved, rest[id].usage);
        }
        assert |rest.Keys - {id}| < |rest.Keys| && (rest - {id}).Keys == rest.Keys - {id};
        rest := rest - {id};
      }
    }

    /**
     The clock is read, as its day, before the lock is taken. A call is granted exactly if the day is not
     paused, what was used on it is below both budgets, and that, the day's open reservations and what the
     call announces fit both budgets together. Reservations of other days go in any case.
     */
    method Reserve(event: Event, clock: int) returns (ok: bool)
      requires Valid()
      modifies this`reservations, this`pausedDay, this`pausedAlerts
      ensures Valid()
      ensures (State(), ok) == AfterReserve(old(State()), config, config.zone(clock), event)
      ensures var day := config.zone(clock);
        var open := old(map id | id in reservations && reservations[id].day == day :: reservations[id]);
        var tokens := event.inputTokens + event.outputTokens;
        var announced := Usage(if tokens > 0 then tokens else 0, if event.cost > 0.0 then event.cost else 0.0);
        && (ok <==>
            && old(pausedDay) != Some(day)
            && TokensOn(events, config.zone, day) < config.budget.tokens
            && CostOn(events, config.zone, day) < config.budget.cost
            && TokensOn(events, config.zone, day) + Total(open).tokens + announced.tokens <= config.budget.tokens
            && CostOn(events, config.zone, day) + Total(open).cost + announced.cost <= config.budget.cost)
        && reservations == (if ok then open[event.id := Reservation(day, announced)] else open)
        && pausedDay == (if ok then None else Some(day))
        && pausedAlerts == old(pausedAlerts) + (if ok then {} else {day})
    {
      hide Total, DayUsage, TokensOn, CostOn, Indexes, Sorted, AfterReserve, OnDay;
      ghost var before := State();
      var day := config.zone(clock);
      if pausedDay.Some? && pausedDay.value != day {
        pausedDay := None;
      }
      ForgetOtherDays(day);
      ghost var open := map id | id in before.reservations && before.reservations[id].day == day :: before.reservations[id];
      assert reservations == open by {
        DayOnly(before.reservations, day);
      }
      var used := Used(day);
      var reserved := Reserved(day);
      var tokens := event.inputTokens + event.outputTokens;
      if tokens < 0 {
        tokens := 0;
      }
      var cost := event.cost;
      if cost < 0.0 {
        cost := 0.0;
      }
      DayUsageIsSum(events, config.zone, day);
      GrantedExactly(before, config, day, event);
      if pausedDay == Some(day) || used.tokens >= config.budget.tokens || used.cost >= config.budget.cost
         || used.tokens + reserved.tokens + tokens > config.budget.tokens || used.cost + reserved.cost + cost > config.budget.cost
      {
        pausedDay := Some(day);
        pausedAlerts := pausedAlerts + {day};
        return false;
      }
      reservations := reservations[event.id := Reservation(day, Usage(tokens, cost))];
      assert State() == AfterReserve(before, config, day, event).0;
      return true;
    }

    /** The insertion and the index update of Record. */
    method InsertAndCount(event: Event)
      requires Valid()
      modifies this`events, this`daily
      ensures Valid() && events == InsertSorted(old(events), event)
    {
      hide InsertSorted, Indexes;
      ghost var before := events;
      ghost var index := InsertEvent(event);
      AddedToIndex(daily, before, index, event, config.zone);
      AddDaily(event);
    }

    /** The hourly pruning of Record. */
    method PruneIfDue(now: int)
      requires Valid()
      modifies this`events, this`daily, this`pausedAlerts, this`nextPrune
      ensures Valid() && State() == AfterPrune(old(State()), config, now)
    {
      hide Since, Indexes, Sorted, HasDay;
      if now >= nextPrune {
        PruneMemory(now - config.retention);
        nextPrune := now + HOUR;
      }
    }

    /**
     One event more, its reservation gone; once an hour the events older than the retention go. A day that
     is used up is paused, unless it was before and is still remembered for it.
     */
    method Record(raw: Event, now: int)
      requires Valid()
      modifies this
      ensures Valid()
      ensures State() == AfterRecord(old(State()), config, raw, now)
      ensures Recorded(old(State()), config, raw, now, State())
    {
      hide InsertSorted, AfterPrune, Indexes, Sorted, Since, AfterRecord, Recorded, DayUsage, TokensOn, CostOn;
      ghost var before := State();
      var ts := if raw.ts == ZERO_TIME then now else raw.ts;
      var status := if raw.status == "" then "error" else raw.status;
      var input := if raw.inputTokens > 0 then raw.inputTokens else 0;
      var output := if raw.outputTokens > 0 then raw.outputTokens else 0;
      var cost := if raw.cost < 0.0 then 0.0 else raw.cost;
      var event := Event(raw.id, ts, status, input, output, cost);
      reservations := reservations - {event.id};
      InsertAndCount(event);
      PruneIfDue(now);
      var day := config.zone(event.ts);
      var used := Used(day);
      RecordStep(before, config, raw, now, event);
      RecordedExactly(before, config, raw, now);
      if (used.tokens >= config.budget.tokens || used.cost >= config.budget.cost) && day !in pausedAlerts {
        pausedAlerts := pausedAlerts + {day};
        pausedDay := Some(day);
      }
    }
  }

  /** The tracker after a recording, in its own fields. */
  ghost predicate Recorded(s: Tracking, config: Config, raw: Event, now: int, after: Tracking) {
    var e := Kept(raw, now);
    var day, due := config.zone(e.ts), now >= s.nextPrune;
    var alerted := set d | d in s.pausedAlerts
      && (due ==> Some(d) == s.pausedDay || exists i :: 0 <= i < |after.events| && config.zone(after.events[i].ts) == d);
    var pauses := day !in alerted
      && (TokensOn(after.events, config.zone, day) >= config.budget.tokens
          || CostOn(after.events, config.zone, day) >= config.budget.cost);
    && (forall x :: multiset(after.events)[x]
                    == if due && x.ts < now - config.retention then 0 else (multiset(s.events) + multiset{e})[x])
    && after.reservations == s.reservations - {raw.id}
    && after.nextPrune == (if due then now + HOUR else s.nextPrune)
    && after.pausedDay == (if pauses then Some(day) else s.pausedDay)
    && after.pausedAlerts == alerted + (if pauses then {day} else {})
  }

  lemma RecordStep(s: Tracking, config: Config, raw: Event, now: int, e: Event)
    requires e == Kept(raw, now)
    ensures var pruned := AfterPrune(s.(reservations := s.reservations - {e.id}, events := InsertSorted(s.events, e)), config, now);
      var used := DayUsage(pruned.events, config.zone, config.zone(e.ts));
      var day := config.zone(e.ts);
      AfterRecord(s, config, raw, now) ==
        if (used.tokens >= config.budget.tokens || used.cost >= config.budget.cost) && day !in pruned.pausedAlerts
        then pruned.(pausedDay := Some(day), pausedAlerts := pruned.pausedAlerts + {day})
        else pruned
  {
    hide AfterPrune, InsertSorted, DayUsage, Cleaned, Kept;
    CleanedIsKept(raw, now);
  }

  lemma RecordedExactly(s: Tracking, config: Config, raw: Event, now: int)
    ensures Recorded(s, config, raw, now, AfterRecord(s, config, raw, now))
  {
    hide InsertSorted, DayUsage, TokensOn, CostOn, Kept, AfterPrune, AfterRecord;
    var e, after := Kept(raw, now), AfterRecord(s, config, raw, now);
    assert e.id == raw.id by {
      KeptId(raw, now);
    }
    var inserted := s.(reservations := s.reservations - {e.id}, events := InsertSorted(s.events, e));
    InsertSortedAdds(s.events, e);
    PrunedExactly(inserted, config, now);
    RecordStep(s, config, raw, now, e);
    DayUsageIsSum(after.events, config.zone, config.zone(e.ts));
  }

  lemma KeptId(raw: Event, now: int)
    ensures Kept(raw, now).id == raw.id
  {
  }

  lemma PrunedExactly(s: Tracking, config: Config, now: int)
    ensures var after, due := AfterPrune(s, config, now), now >= s.nextPrune;
      && after.reservations == s.reservations && after.pausedDay == s.pausedDay
      && after.nextPrune == (if due then now + HOUR else s.nextPrune)
      && (forall x :: multiset(after.events)[x]
                      == if due && x.ts < now - config.retention then 0 else multiset(s.events)[x])
      && after.pausedAlerts == set d | d in s.pausedAlerts
           && (due ==> Some(d) == s.pausedDay || exists i :: 0 <= i < |after.events| && config.zone(after.events[i].ts) == d)
  {
    hide Since;
    var before := now - config.retention;
    forall x ensures multiset(Since(s.events, before))[x] == if x.ts < before then 0 else multiset(s.events)[x] {
      SinceDropsOlder(s.events, before, x);
    }
  }

  lemma DayOnly(r: Reservations, day: int)
    ensures OnDay(r, day) == map id | id in r && r[id].day == day :: r[id]
  {
  }

  /** What a reservation step decides, and what it leaves. */
  lemma GrantedExactly(s: Tracking, config: Config, day: int, event: Event)
    ensures var (after, ok) := AfterReserve(s, config, day, event);
      var open := map id | id in s.reservations && s.reservations[id].day == day :: s.reservations[id];
      var tokens := event.inputTokens + event.outputTokens;
      var announced := Usage(if tokens > 0 then tokens else 0, if event.cost > 0.0 then event.cost else 0.0);
      && (ok <==>
          && s.pausedDay != Some(day)
          && TokensOn(s.events, config.zone, day) < config.budget.tokens
          && CostOn(s.events, config.zone, day) < config.budget.cost
          && TokensOn(s.events, config.zone, day) + Total(open).tokens + announced.tokens <= config.budget.tokens
          && CostOn(s.events, config.zone, day) + Total(open).cost + announced.cost <= config.budget.cost)
      && after == Tracking(s.events,
                           if ok then open[event.id := Reservation(day, announced)] else open,
                           if ok then None else Some(day),
                           s.pausedAlerts + (if ok then {} else {day}),
                           s.nextPrune)
  {
    hide Total, DayUsage, TokensOn, CostOn;
    DayUsageIsSum(s.events, config.zone, day);
    assert OnDay(s.reservations, day) == map id | id in s.reservations && s.reservations[id].day == day :: s.reservations[id];
  }

  lemma LatestIsLast(events: seq<Event>, event: Event)
    requires Sorted(events) && (events == [] || events[|events| - 1].ts <= event.ts)
    ensures forall k :: 0 <= k < |events| ==> events[k].ts <= event.ts
  {
  }

  lemma Inserted(events: seq<Event>, event: Event, place: nat)
    requires Sorted(events) && place <= |events|
    requires forall k :: 0 <= k < place ==> events[k].ts <= event.ts
    requires forall k :: place <= k < |events| ==> events[k].ts > event.ts
    ensures var all := events[..place] + [event] + events[place..];
      Sorted(all) && multiset(all) == multiset(events) + multiset{event} && InsertSorted(events, event) == all
  {
    InsertSortedPlace(events, event, place);
    InsertSortedKeepsOrder(events, event, place);
  }

  /** Counting an event in its day's totals indexes the list with the event put anywhere. */
  lemma AddedToIndex(daily: map<int, Totals>, events: seq<Event>, i: nat, e: Event, zone: int -> int)
    requires Indexes(daily, events, zone) && i <= |events|
    ensures var day := zone(e.ts);
      Indexes(daily[day := Counted(if day in daily then daily[day] else NO_TOTALS, e)],
              events[..i] + [e] + events[i..], zone)
  {
    var day := zone(e.ts);
    var more := daily[day := Counted(if day in daily then daily[day] else NO_TOTALS, e)];
    var all := events[..i] + [e] + events[i..];
    if !HasDay(events, zone, day) {
      NoEventNoTotals(events, zone, day);
    }
    forall d
      ensures d in more <==> HasDay(all, zone, d)
      ensures d in more ==> more[d] == DayTotals(all, zone, d)
    {
      TotalsOfInserted(events, i, e, zone, d);
      HasDayOfInserted(events, i, e, zone, d);
    }
  }
}
