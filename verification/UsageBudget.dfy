/**
 Reservations against a day's token and cost budget (Reserve and Record of
 internal/tokenusage/tracker.go), over runs in which many callers reserve, use and record.
 */
module UsageBudget {
  import opened Wrappers
  import opened UsageLog

  const HOUR := 3_600_000_000_000

  datatype Config = Config(budget: Usage, retention: int, zone: int -> int)

  datatype Reservation = Reservation(day: int, usage: Usage)

  type Reservations = map<string, Reservation>

  /** The tracker's memory, without the daily map that its events determine. */
  datatype Tracking = Tracking(
    events: seq<Event>,
    reservations: Reservations,
    pausedDay: Option<int>,
    pausedAlerts: set<int>,
    nextPrune: int)

  function MaxZero(n: int): int { if n > 0 then n else 0 }

  /** The amounts a caller announces, or has used, with negative ones taken as zero. */
  function Predicted(e: Event): Usage {
    Usage(MaxZero(e.inputTokens + e.outputTokens), if e.cost > 0.0 then e.cost else 0.0)
  }

  function OnDay(r: Reservations, day: int): Reservations { map id | id in r && r[id].day == day :: r[id] }

  ghost function Total(r: Reservations): Usage {
    if r == map[] then Usage(0, 0.0)
    else
      var id :| id in r;
      Plus(r[id].usage, Total(r - {id}))
  }

  predicate Full(used: Usage, budget: Usage) { used.tokens >= budget.tokens || used.cost >= budget.cost }

  /** Reserve: a new day forgets the reservations and the pause of other days. */
  ghost function AfterReserve(s: Tracking, config: Config, day: int, event: Event): (Tracking, bool) {
    var paused := if s.pausedDay.Some? && s.pausedDay.value != day then None else s.pausedDay;
    var current := OnDay(s.reservations, day);
    var used := DayUsage(s.events, config.zone, day);
    if paused == Some(day) || Full(used, config.budget)
       || !NoMore(Plus(Plus(used, Total(current)), Predicted(event)), config.budget)
    then (s.(reservations := current, pausedDay := Some(day), pausedAlerts := s.pausedAlerts + {day}), false)
    else (s.(reservations := current[event.id := Reservation(day, Predicted(event))], pausedDay := paused), true)
  }

  function Cleaned(e: Event, now: int): Event {
    e.(ts := if e.ts == ZERO_TIME then now else e.ts,
       status := if e.status == "" then "error" else e.status,
       inputTokens := MaxZero(e.inputTokens),
       outputTokens := MaxZero(e.outputTokens),
       cost := if e.cost > 0.0 then e.cost else 0.0)
  }

  /** Forgetting old events also forgets the alerts of days that have none left. */
  ghost function AfterPrune(s: Tracking, config: Config, now: int): Tracking {
    if now < s.nextPrune then s
    else
      var kept := Since(s.events, now - config.retention);
      s.(events := kept,
         pausedAlerts := (set d | d in s.pausedAlerts && (HasDay(kept, config.zone, d) || Some(d) == s.pausedDay)),
         nextPrune := now + HOUR)
  }

  /** Record: the reservation goes, the event comes, and a day used up is paused once. */
  ghost function AfterRecord(s: Tracking, config: Config, event: Event, now: int): Tracking {
    var e := Cleaned(event, now);
    var pruned := AfterPrune(s.(reservations := s.reservations - {e.id}, events := InsertSorted(s.events, e)), config, now);
    var day := config.zone(e.ts);
    if Full(DayUsage(pruned.events, config.zone, day), config.budget) && day !in pruned.pausedAlerts
    then pruned.(pausedDay := Some(day), pausedAlerts := pruned.pausedAlerts + {day})
    else pruned
  }

  // ---- runs ----

  datatype Action = Reserve(clock: int, event: Event) | Record(event: Event, now: int)

  /** The tracker, all reservations that were granted and not yet recorded, and everything ever recorded. */
  datatype World = World(tracking: Tracking, granted: Reservations, recorded: seq<Event>)

  /** What stays of a recorded call: its id, its time or else the clock's, a status, and no negative amount. */
  function Kept(event: Event, now: int): Event {
    Event(event.id,
          if event.ts == ZERO_TIME then now else event.ts,
          if event.status == "" then "error" else event.status,
          if event.inputTokens < 0 then 0 else event.inputTokens,
          if event.outputTokens < 0 then 0 else event.outputTokens,
          if event.cost < 0.0 then 0.0 else event.cost)
  }

  lemma CleanedIsKept(event: Event, now: int)
    ensures Cleaned(event, now) == Kept(event, now)
  {
  }

  /** clock is what Reserve read before it took the lock. */
  ghost function Step(w: World, config: Config, action: Action): World {
    match action
    case Reserve(clock, event) =>
      var day := config.zone(clock);
      var (tracking, ok) := AfterReserve(w.tracking, config, day, event);
      var tokens, cost := event.inputTokens + event.outputTokens, event.cost;
      var announced := Usage(if tokens > 0 then tokens else 0, if cost > 0.0 then cost else 0.0);
      World(tracking, if ok then w.granted[event.id := Reservation(day, announced)] else w.granted, w.recorded)
    case Record(event, now) =>
      World(AfterRecord(w.tracking, config, event, now), w.granted - {event.id}, w.recorded + [Kept(event, now)])
  }

  ghost function After(w: World, config: Config, actions: seq<Action>): World {
    if actions == [] then w else Step(After(w, config, actions[..|actions| - 1]), config, actions[|actions| - 1])
  }

  /** Ids are not reused, and a recorded call uses at most what it reserved. */
  ghost predicate KeepsToReservation(w: World, action: Action) {
    match action
    case Reserve(_, event) => event.id !in w.granted
    case Record(event, now) =>
      var e := Kept(event, now);
      if event.id in w.granted then
        && e.inputTokens + e.outputTokens <= w.granted[event.id].usage.tokens
        && e.cost <= w.granted[event.id].usage.cost
      else e.inputTokens + e.outputTokens == 0 && e.cost == 0.0
  }

  /** A recorded call is stamped with the day it was reserved on. */
  ghost predicate KeepsToDay(w: World, config: Config, action: Action) {
    action.Record? && action.event.id in w.granted ==>
      config.zone(Kept(action.event, action.now).ts) == w.granted[action.event.id].day
  }

  ghost predicate Fair(w: World, config: Config, action: Action) {
    KeepsToReservation(w, action) && KeepsToDay(w, config, action)
  }

  ghost predicate FairRun(w: World, config: Config, actions: seq<Action>) {
    forall i :: 0 <= i < |actions| ==> Fair(After(w, config, actions[..i]), config, actions[i])
  }

  /** What was ever recorded for the day, and what its granted reservations may still use. */
  ghost function Committed(w: World, config: Config, day: int): Usage {
    Plus(DayUsage(w.recorded, config.zone, day), Total(OnDay(w.granted, day)))
  }

  /** On every day the recorded and the reserved tokens fit their budget, and the costs theirs. */
  ghost predicate WithinBudget(w: World, config: Config) {
    forall day ::
      var reserved := Total(map id | id in w.granted && w.granted[id].day == day :: w.granted[id]);
      && TokensOn(w.recorded, config.zone, day) + reserved.tokens <= config.budget.tokens
      && CostOn(w.recorded, config.zone, day) + reserved.cost <= config.budget.cost
  }

  /** The same, with the index's totals. */
  ghost predicate Fits(w: World, config: Config) {
    forall day :: NoMore(Committed(w, config, day), config.budget)
  }

  lemma WithinFits(w: World, config: Config)
    ensures WithinBudget(w, config) <==> Fits(w, config)
  {
    hide Total, DayUsage, TokensOn, CostOn;
    forall day
      ensures OnDay(w.granted, day) == map id | id in w.granted && w.granted[id].day == day :: w.granted[id]
      ensures DayUsage(w.recorded, config.zone, day)
              == Usage(TokensOn(w.recorded, config.zone, day), CostOn(w.recorded, config.zone, day))
    {
      DayUsageIsSum(w.recorded, config.zone, day);
    }
    if Fits(w, config) {
      forall day
        ensures var reserved := Total(map id | id in w.granted && w.granted[id].day == day :: w.granted[id]);
          && TokensOn(w.recorded, config.zone, day) + reserved.tokens <= config.budget.tokens
          && CostOn(w.recorded, config.zone, day) + reserved.cost <= config.budget.cost
      {
        assert NoMore(Committed(w, config, day), config.budget);
      }
    }
  }

  /** The days that Reserve saw, in the order in which it took the lock. */
  function ReserveDays(actions: seq<Action>, zone: int -> int): seq<int> {
    if actions == [] then []
    else
      var rest := ReserveDays(actions[..|actions| - 1], zone);
      var last := actions[|actions| - 1];
      if last.Reserve? then rest + [zone(last.clock)] else rest
  }

  /** A day comes back after another one had its turn. */
  ghost predicate Revisits(days: seq<int>) {
    exists i, j, k :: 0 <= i < j < k < |days| && days[i] == days[k] != days[j]
  }

  /** A recording prunes an event of the day. */
  ghost predicate Forgets(w: World, config: Config, action: Action, day: int) {
    && action.Record? && action.now >= w.tracking.nextPrune
    && exists t :: TimeOn(InsertSorted(w.tracking.events, Cleaned(action.event, action.now)), config.zone, day, t)
                   && t < action.now - config.retention
  }

  /** An event of the day has this time. */
  ghost predicate TimeOn(events: seq<Event>, zone: int -> int, day: int, t: int) {
    zone(t) == day && exists i :: 0 <= i < |events| && events[i].ts == t
  }

  /** Nothing of the day was pruned in the run. */
  ghost predicate Remembered(w: World, config: Config, actions: seq<Action>, day: int) {
    forall i :: 0 <= i < |actions| ==> !Forgets(After(w, config, actions[..i]), config, actions[i], day)
  }

  /** A day is reserved on after one of its events was pruned. */
  ghost predicate ForgottenDayReturns(w: World, config: Config, actions: seq<Action>) {
    exists j :: 0 <= j < |actions| && actions[j].Reserve?
      && !Remembered(w, config, actions[..j], config.zone(actions[j].clock))
  }

  // ---- sums over reservations ----

  lemma {:induction false} TotalWithout(r: Reservations, id: string)
    requires id in r
    ensures Total(r) == Plus(r[id].usage, Total(r - {id}))
  {
    var first :| first in r && Total(r) == Plus(r[first].usage, Total(r - {first}));
    if first != id {
      var rest := r - {first} - {id};
      assert r - {id} - {first} == rest;
      TotalWithout(r - {first}, id);
      TotalWithout(r - {id}, first);
      assert Total(r - {first}) == Plus(r[id].usage, Total(rest));
      assert Total(r - {id}) == Plus(r[first].usage, Total(rest));
      assert Total(r) == Plus(r[first].usage, Plus(r[id].usage, Total(rest)));
      assert Plus(r[first].usage, Plus(r[id].usage, Total(rest))) == Plus(r[id].usage, Plus(r[first].usage, Total(rest)));
    }
  }

  /** A total is nothing for no reservations, and otherwise the sum of any one of them and the rest. */
  lemma TotalAddsUp(r: Reservations, id: string)
    ensures Total(map[]) == Usage(0, 0.0)
    ensures id in r ==>
      && Total(r).tokens == r[id].usage.tokens + Total(r - {id}).tokens
      && Total(r).cost == r[id].usage.cost + Total(r - {id}).cost
  {
    if id in r {
      TotalWithout(r, id);
    }
  }

  lemma TotalWith(r: Reservations, id: string, reservation: Reservation)
    requires id !in r
    ensures Total(r[id := reservation]) == Plus(reservation.usage, Total(r))
  {
    TotalWithout(r[id := reservation], id);
    assert r[id := reservation] - {id} == r;
  }

  lemma OnDayWith(r: Reservations, id: string, reservation: Reservation, day: int)
    requires id !in r
    ensures Total(OnDay(r[id := reservation], day)) ==
      if reservation.day == day then Plus(reservation.usage, Total(OnDay(r, day))) else Total(OnDay(r, day))
  {
    if reservation.day == day {
      assert OnDay(r[id := reservation], day) == OnDay(r, day)[id := reservation];
      TotalWith(OnDay(r, day), id, reservation);
    } else {
      assert OnDay(r[id := reservation], day) == OnDay(r, day);
    }
  }

  lemma OnDayWithout(r: Reservations, id: string, day: int)
    requires id in r
    ensures Total(OnDay(r, day)) ==
      if r[id].day == day then Plus(r[id].usage, Total(OnDay(r - {id}, day))) else Total(OnDay(r - {id}, day))
  {
    if r[id].day == day {
      assert OnDay(r - {id}, day) == OnDay(r, day) - {id};
      TotalWithout(OnDay(r, day), id);
    } else {
      assert OnDay(r - {id}, day) == OnDay(r, day);
    }
  }

  // ---- no overshoot ----

  /** Every tracked reservation was granted, and every granted one of the current day is tracked. */
  ghost predicate Tracked(w: World, days: seq<int>) {
    && (forall id :: id in w.tracking.reservations ==> id in w.granted && w.granted[id] == w.tracking.reservations[id])
    && (forall id :: id in w.granted ==> w.granted[id].day in days)
    && (forall id :: id in w.granted && w.granted[id].day == days[|days| - 1] ==> id in w.tracking.reservations)
  }

  /** A run starts with usage within the budget, all of it still in memory, and no reservation. */
  ghost predicate Start(w: World, config: Config) {
    && w.recorded == w.tracking.events
    && w.granted == map[] && w.tracking.reservations == map[]
    && WithinBudget(w, config)
  }

  ghost predicate Inv(w: World, config: Config, days: seq<int>) { Tracked(w, days) && Fits(w, config) }

  /** What the tracker still knows of the day is all that was recorded. */
  ghost predicate Known(w: World, config: Config, day: int) {
    DayUsage(w.tracking.events, config.zone, day) == DayUsage(w.recorded, config.zone, day)
  }

  /** On a day that was not left yet, the tracked reservations are all that were granted. */
  lemma TrackedIsGranted(w: World, days: seq<int>, day: int)
    requires Tracked(w, days)
    requires day in days ==> day == days[|days| - 1]
    ensures OnDay(w.tracking.reservations, day) == OnDay(w.granted, day)
  {
  }

  lemma ReserveKeeps(w: World, config: Config, days: seq<int>, clock: int, event: Event)
    requires Inv(w, config, days) && event.id !in w.granted
    requires var day := config.zone(clock); Known(w, config, day) && (day in days ==> day == days[|days| - 1])
    ensures Inv(Step(w, config, Reserve(clock, event)), config, days + [config.zone(clock)])
  {
    hide Total, OnDay, DayUsage, Full;
    var day, next := config.zone(clock), Step(w, config, Reserve(clock, event));
    TrackedIsGranted(w, days, day);
    ReserveTracked(w, config, days, clock, event);
    forall d ensures NoMore(Committed(next, config, d), config.budget) {
      assert NoMore(Committed(w, config, d), config.budget);
      OnDayWith(w.granted, event.id, Reservation(day, Predicted(event)), d);
    }
  }

  lemma ReserveTracked(w: World, config: Config, days: seq<int>, clock: int, event: Event)
    requires Tracked(w, days) && event.id !in w.granted
    requires var day := config.zone(clock); day in days ==> day == days[|days| - 1]
    ensures Tracked(Step(w, config, Reserve(clock, event)), days + [config.zone(clock)])
  {
    hide Total, DayUsage, NoMore;
  }

  /** A recorded call moves its share from the reservations to the usage, whatever is pruned. */
  lemma RecordKeeps(w: World, config: Config, days: seq<int>, event: Event, now: int)
    requires Inv(w, config, days) && Fair(w, config, Record(event, now))
    ensures Inv(Step(w, config, Record(event, now)), config, days)
  {
    hide Total, DayUsage, OnDay;
    var next, e := Step(w, config, Record(event, now)), Cleaned(event, now);
    forall d ensures NoMore(Committed(next, config, d), config.budget) {
      assert NoMore(Committed(w, config, d), config.budget);
      UsageOfAppended(w.recorded, e, config.zone, d);
      if e.id in w.granted {
        OnDayWithout(w.granted, e.id, d);
      } else {
        assert w.granted - {e.id} == w.granted;
      }
    }
  }

  /** A step that forgets nothing of the day keeps the day known. */
  lemma StepKeepsKnown(w: World, config: Config, action: Action, day: int)
    requires Known(w, config, day) && !Forgets(w, config, action, day)
    ensures Known(Step(w, config, action), config, day)
  {
    hide DayTotals, InsertSorted, Since, HasDay, Total, OnDay;
    if action.Record? {
      var e := Cleaned(action.event, action.now);
      UsageOfAppended(w.recorded, e, config.zone, day);
      UsageOfInsertSorted(w.tracking.events, e, config.zone, day);
      var all := InsertSorted(w.tracking.events, e);
      if action.now >= w.tracking.nextPrune {
        forall i | 0 <= i < |all| && config.zone(all[i].ts) == day ensures all[i].ts >= action.now - config.retention {
          assert TimeOn(all, config.zone, day, all[i].ts);
        }
        PruningKeepsDay(all, action.now - config.retention, config.zone, day);
      }
    }
  }

  lemma {:induction false} RememberedDayIsKnown(w: World, config: Config, actions: seq<Action>, day: int)
    requires Known(w, config, day) && Remembered(w, config, actions, day)
    ensures Known(After(w, config, actions), config, day)
  {
    hide Known, Step, Forgets;
    if actions != [] {
      var n := |actions| - 1;
      var init := actions[..n];
      assert forall i :: 0 <= i < n ==> init[..i] == actions[..i];
      RememberedDayIsKnown(w, config, init, day);
      StepKeepsKnown(After(w, config, init), config, actions[n], day);
    }
  }

  lemma RevisitsOfExtension(days: seq<int>, day: int)
    ensures Revisits(days) ==> Revisits(days + [day])
    ensures day in days && day != days[|days| - 1] ==> Revisits(days + [day])
  {
    var more := days + [day];
    if Revisits(days) {
      var i, j, k :| 0 <= i < j < k < |days| && days[i] == days[k] != days[j];
      assert more[i] == more[k] != more[j];
    }
    if day in days && day != days[|days| - 1] {
      var i :| 0 <= i < |days| && days[i] == day;
      assert more[i] == more[|days|] != more[|days| - 1];
    }
  }

  lemma {:induction false} FairRunKeeps(w: World, config: Config, actions: seq<Action>)
    requires Start(w, config) && FairRun(w, config, actions)
    requires !Revisits(ReserveDays(actions, config.zone)) && !ForgottenDayReturns(w, config, actions)
    ensures Inv(After(w, config, actions), config, ReserveDays(actions, config.zone))
  {
    hide Inv, Fair, Step, Remembered, WithinBudget, Fits;
    if actions == [] {
      StartHolds(w, config);
    } else {
      var n := |actions| - 1;
      var init := actions[..n];
      assert forall i :: 0 <= i <= n ==> init[..i] == actions[..i];
      var days := ReserveDays(init, config.zone);
      if actions[n].Reserve? {
        RevisitsOfExtension(days, config.zone(actions[n].clock));
        RememberedDayIsKnown(w, config, init, config.zone(actions[n].clock));
      }
      FairRunKeeps(w, config, init);
      FairStepKeeps(After(w, config, init), config, days, actions[n]);
    }
  }

  lemma StartHolds(w: World, config: Config)
    requires Start(w, config)
    ensures Inv(w, config, [])
  {
    WithinFits(w, config);
  }

  lemma FairStepKeeps(w: World, config: Config, days: seq<int>, action: Action)
    requires Inv(w, config, days) && Fair(w, config, action)
    requires action.Reserve? ==>
      var day := config.zone(action.clock); Known(w, config, day) && (day in days ==> day == days[|days| - 1])
    ensures Inv(Step(w, config, action), config, if action.Reserve? then days + [config.zone(action.clock)] else days)
  {
    hide Inv, Step, Known;
    match action
    case Reserve(clock, event) => ReserveKeeps(w, config, days, clock, event);
    case Record(event, now) => RecordKeeps(w, config, days, event, now);
  }

  /**
   No overshoot: as long as no day comes back to the lock after another one, or after one of its events
   was pruned, all that was ever recorded for a day plus its granted, unrecorded reservations stays
   within both budgets, although a change of day drops reservations that are still in use.
   */
  lemma NoOvershoot(w: World, config: Config, actions: seq<Action>)
    requires Start(w, config) && FairRun(w, config, actions)
    requires !Revisits(ReserveDays(actions, config.zone)) && !ForgottenDayReturns(w, config, actions)
    ensures WithinBudget(After(w, config, actions), config)
  {
    FairRunKeeps(w, config, actions);
    WithinFits(After(w, config, actions), config);
  }

  /** No two moments of one day are further apart than the retention. */
  ghost predicate RetentionCoversDays(config: Config) {
    forall t, u :: config.zone(t) == config.zone(u) ==> u - t <= config.retention
  }

  /** No reservation reads an earlier time than a recording before it. */
  ghost predicate ClockAdvances(actions: seq<Action>) {
    forall i, j :: 0 <= i < j < |actions| && actions[i].Record? && actions[j].Reserve? ==> actions[i].now <= actions[j].clock
  }

  /** A retention of at least the longest day never forgets a day that is still reserved on. */
  lemma LongRetentionRemembers(w: World, config: Config, actions: seq<Action>)
    requires RetentionCoversDays(config) && ClockAdvances(actions)
    ensures !ForgottenDayReturns(w, config, actions)
  {
    hide After, InsertSorted, Cleaned;
    forall j | 0 <= j < |actions| && actions[j].Reserve?
      ensures Remembered(w, config, actions[..j], config.zone(actions[j].clock))
    {
      forall i | 0 <= i < j ensures actions[i].Record? ==> actions[i].now <= actions[j].clock {
      }
    }
  }

  /** In particular when the clock and the days only ever advance and the retention covers a day. */
  lemma NoOvershootWhileDaysAdvance(w: World, config: Config, actions: seq<Action>)
    requires Start(w, config) && FairRun(w, config, actions)
    requires RetentionCoversDays(config) && ClockAdvances(actions)
    requires var days := ReserveDays(actions, config.zone); forall i, j :: 0 <= i < j < |days| ==> days[i] <= days[j]
    ensures WithinBudget(After(w, config, actions), config)
  {
    hide Start, FairRun, WithinBudget;
    LongRetentionRemembers(w, config, actions);
    NoOvershoot(w, config, actions);
  }

  // ---- the exact limit of the guarantee ----

  /** Ids that differ in their length. */
  function CallerId(n: nat): (id: string)
    ensures |id| == n
  {
    seq(n, i => 'x')
  }

  /** A caller's event: an id of its own, and an announced number of input tokens. */
  function Announced(n: nat, tokens: int): Event { Event(CallerId(n), 1, "success", tokens, 0, 0.0) }

  function DaysOf(clocks: seq<int>, zone: int -> int): seq<int> {
    seq(|clocks|, n requires 0 <= n < |clocks| => zone(clocks[n]))
  }

  /** Two callers, at positions i and k, announce the whole token budget; all others announce nothing. */
  function Overshooting(clocks: seq<int>, i: nat, k: nat, tokens: int): seq<Action> {
    seq(|clocks|, n requires 0 <= n < |clocks| => Reserve(clocks[n], Announced(n, if n == i || n == k then tokens else 0)))
  }

  ghost function EmptyWorld(): World { World(Tracking([], map[], None, {}, 0), map[], []) }

  lemma {:induction false} DaysOfReserves(actions: seq<Action>, clocks: seq<int>, zone: int -> int)
    requires |actions| == |clocks|
    requires forall n :: 0 <= n < |clocks| ==> actions[n].Reserve? && actions[n].clock == clocks[n]
    ensures ReserveDays(actions, zone) == DaysOf(clocks, zone)
  {
    if actions != [] {
      var n := |actions| - 1;
      DaysOfReserves(actions[..n], clocks[..n], zone);
    }
  }

  /** At most one reservation announces anything. */
  lemma {:induction false} TotalOfOne(r: Reservations, id: string)
    requires forall other :: other in r && other != id ==> r[other].usage == Usage(0, 0.0)
    ensures Total(r) == if id in r then r[id].usage else Usage(0, 0.0)
  {
    if other :| other in r && other != id {
      TotalWithout(r, other);
      TotalOfOne(r - {other}, id);
    } else if id in r {
      TotalWithout(r, id);
      assert r - {id} == map[];
    } else {
      assert r == map[];
    }
  }

  lemma {:induction false} TotalIsNonNegative(r: Reservations)
    requires forall id :: id in r ==> NoMore(Usage(0, 0.0), r[id].usage)
    ensures NoMore(Usage(0, 0.0), Total(r))
  {
    if r != map[] {
      var id :| id in r;
      TotalWithout(r, id);
      TotalIsNonNegative(r - {id});
    }
  }

  /** The reservation of the caller at a position. */
  function Share(days: seq<int>, i: nat, k: nat, tokens: int, n: nat): Reservation
    requires n < |days|
  {
    Reservation(days[n], Usage(if n == i || n == k then tokens else 0, 0.0))
  }

  /**
   After n callers all were granted; the tracked reservations are some of them, without the one at i
   once the other day had its turn at j.
   */
  ghost predicate Overshot(w: World, days: seq<int>, i: nat, j: nat, k: nat, tokens: int, n: nat)
    requires n <= |days|
  {
    && w.tracking.events == [] && w.recorded == [] && w.tracking.pausedDay == None
    && (forall id :: id in w.granted ==> |id| < n && id == CallerId(|id|))
    && (forall m :: 0 <= m < n ==> CallerId(m) in w.granted && w.granted[CallerId(m)] == Share(days, i, k, tokens, m))
    && (forall id :: id in w.tracking.reservations ==> id in w.granted && w.tracking.reservations[id] == w.granted[id])
    && (n > j ==> CallerId(i) !in w.tracking.reservations)
  }

  /** The next caller finds room for its announcement. */
  lemma NextIsGranted(w: World, config: Config, days: seq<int>, i: nat, j: nat, k: nat, n: nat)
    requires i < j < k < |days| && n <= k
    requires config.budget.tokens > 0 && config.budget.cost > 0.0
    requires Overshot(w, days, i, j, k, config.budget.tokens, n)
    ensures AfterReserve(w.tracking, config, days[n], Announced(n, Share(days, i, k, config.budget.tokens, n).usage.tokens)).1
  {
    hide AfterReserve, Total, DayUsage, NoMore, Full;
    var current := OnDay(w.tracking.reservations, days[n]);
    forall other | other in current && other != CallerId(i) ensures current[other].usage == Usage(0, 0.0) {
      assert w.granted[CallerId(|other|)] == Share(days, i, k, config.budget.tokens, |other|);
    }
    TotalOfOne(current, CallerId(i));
    if CallerId(i) in current {
      assert w.granted[CallerId(i)] == Share(days, i, k, config.budget.tokens, i);
    }
    var event := Announced(n, Share(days, i, k, config.budget.tokens, n).usage.tokens);
    RoomIsGranted(w.tracking, config, days[n], event);
  }

  /** On an unused, unpaused day whatever fits beside the tracked reservations is granted. */
  lemma RoomIsGranted(s: Tracking, config: Config, day: int, event: Event)
    requires s.events == [] && s.pausedDay == None
    requires config.budget.tokens > 0 && config.budget.cost > 0.0
    requires Total(OnDay(s.reservations, day)).tokens + Predicted(event).tokens <= config.budget.tokens
    requires Total(OnDay(s.reservations, day)).cost + Predicted(event).cost <= config.budget.cost
    ensures AfterReserve(s, config, day, event).1
  {
    hide OnDay, Total, Predicted;
  }

  lemma NextOvershot(w: World, config: Config, clocks: seq<int>, i: nat, j: nat, k: nat, n: nat)
    requires i < j < k < |clocks| && n <= k && config.zone(clocks[i]) != config.zone(clocks[j])
    requires config.budget.tokens > 0 && config.budget.cost > 0.0
    requires Overshot(w, DaysOf(clocks, config.zone), i, j, k, config.budget.tokens, n)
    ensures var action := Overshooting(clocks, i, k, config.budget.tokens)[n];
      && Fair(w, config, action)
      && Overshot(Step(w, config, action), DaysOf(clocks, config.zone), i, j, k, config.budget.tokens, n + 1)
  {
    hide AfterReserve, Overshot, CallerId;
    var days := DaysOf(clocks, config.zone);
    var mine := Share(days, i, k, config.budget.tokens, n);
    var event := Announced(n, mine.usage.tokens);
    NextIsGranted(w, config, days, i, j, k, n);
    NotYetGranted(w, days, i, j, k, config.budget.tokens, n);
    GrantedStep(w.tracking, config, days[n], event);
    var next := Step(w, config, Reserve(clocks[n], event));
    assert Predicted(event) == mine.usage;
    GrantedOvershot(w, next, days, i, j, k, config.budget.tokens, n);
  }

  lemma NotYetGranted(w: World, days: seq<int>, i: nat, j: nat, k: nat, tokens: int, n: nat)
    requires n < |days| && Overshot(w, days, i, j, k, tokens, n)
    ensures CallerId(n) !in w.granted
    ensures w.tracking.pausedDay == None
  {
  }

  lemma GrantedStep(s: Tracking, config: Config, day: int, event: Event)
    requires s.pausedDay == None && AfterReserve(s, config, day, event).1
    ensures AfterReserve(s, config, day, event).0 ==
      s.(reservations := OnDay(s.reservations, day)[event.id := Reservation(day, Predicted(event))])
  {
    hide Total, DayUsage, Full, NoMore, OnDay;
  }

  lemma GrantedOvershot(w: World, next: World, days: seq<int>, i: nat, j: nat, k: nat, tokens: int, n: nat)
    requires i < j < k < |days| && n <= k && days[i] != days[j]
    requires Overshot(w, days, i, j, k, tokens, n)
    requires var mine := Share(days, i, k, tokens, n);
      && next.tracking == w.tracking.(reservations := OnDay(w.tracking.reservations, days[n])[CallerId(n) := mine])
      && next.granted == w.granted[CallerId(n) := mine] && next.recorded == w.recorded
    ensures Overshot(next, days, i, j, k, tokens, n + 1)
  {
    assert |CallerId(n)| == n;
    if n >= j {
      assert w.granted[CallerId(i)] == Share(days, i, k, tokens, i);
      assert |CallerId(i)| != n;
    }
    forall m | 0 <= m < n ensures CallerId(m) in next.granted && next.granted[CallerId(m)] == Share(days, i, k, tokens, m) {
      assert |CallerId(m)| != n;
    }
  }

  lemma FairRunExtends(w: World, config: Config, actions: seq<Action>, action: Action)
    requires FairRun(w, config, actions) && Fair(After(w, config, actions), config, action)
    ensures FairRun(w, config, actions + [action])
    ensures After(w, config, actions + [action]) == Step(After(w, config, actions), config, action)
  {
    hide Fair, Step;
    var more := actions + [action];
    assert forall i :: 0 <= i <= |actions| ==> more[..i] == actions[..i];
    assert actions[..|actions|] == actions;
  }

  lemma {:induction false} PrefixOvershot(config: Config, clocks: seq<int>, i: nat, j: nat, k: nat, n: nat)
    requires i < j < k < |clocks| && n <= k + 1 && config.zone(clocks[i]) != config.zone(clocks[j])
    requires config.budget.tokens > 0 && config.budget.cost > 0.0
    ensures var actions := Overshooting(clocks, i, k, config.budget.tokens)[..n];
      && FairRun(EmptyWorld(), config, actions)
      && Overshot(After(EmptyWorld(), config, actions), DaysOf(clocks, config.zone), i, j, k, config.budget.tokens, n)
  {
    hide Overshot, Fair, Step, FairRun, After, DaysOf;
    var actions := Overshooting(clocks, i, k, config.budget.tokens);
    if n > 0 {
      PrefixOvershot(config, clocks, i, j, k, n - 1);
      assert actions[..n] == actions[..n - 1] + [actions[n - 1]];
      NextOvershot(After(EmptyWorld(), config, actions[..n - 1]), config, clocks, i, j, k, n - 1);
      FairRunExtends(EmptyWorld(), config, actions[..n - 1], actions[n - 1]);
    } else {
      assert actions[..0] == [];
      NothingYet(config);
      EmptyOvershot(DaysOf(clocks, config.zone), i, j, k, config.budget.tokens);
    }
  }

  lemma NothingYet(config: Config)
    ensures FairRun(EmptyWorld(), config, []) && After(EmptyWorld(), config, []) == EmptyWorld()
  {
  }

  lemma EmptyOvershot(days: seq<int>, i: nat, j: nat, k: nat, tokens: int)
    ensures Overshot(EmptyWorld(), days, i, j, k, tokens, 0)
  {
  }

  /**
   The converse: for every order of times in which a day comes back, and any budgets, there is a fair run
   from an empty tracker whose callers read these times and are granted more than the token budget.
   Nothing is pruned in it.
   */
  lemma RevisitedDayOvershoots(config: Config, clocks: seq<int>) returns (actions: seq<Action>)
    requires config.budget.tokens > 0 && config.budget.cost > 0.0
    requires Revisits(DaysOf(clocks, config.zone))
    ensures Start(EmptyWorld(), config) && FairRun(EmptyWorld(), config, actions)
    ensures ReserveDays(actions, config.zone) <= DaysOf(clocks, config.zone)
    ensures !ForgottenDayReturns(EmptyWorld(), config, actions)
    ensures !WithinBudget(After(EmptyWorld(), config, actions), config)
  {
    hide After, Overshot, Start, WithinBudget, Share, Announced, CallerId;
    var days := DaysOf(clocks, config.zone);
    var i, j, k :| 0 <= i < j < k < |days| && days[i] == days[k] != days[j];
    actions := Overshooting(clocks, i, k, config.budget.tokens)[..k + 1];
    PrefixOvershot(config, clocks, i, j, k, k + 1);
    DaysOfReserves(actions, clocks[..k + 1], config.zone);
    assert DaysOf(clocks[..k + 1], config.zone) == days[..k + 1];
    EmptyIsStart(config);
    TwiceTheBudget(After(EmptyWorld(), config, actions), config, days, i, j, k);
  }

  /** A call that used what it reserved. */
  function Spent(n: nat, ts: int, tokens: int): Event { Event(CallerId(n), ts, "success", tokens, 0, 0.0) }

  /** One call reserves, uses and records the whole budget; later another one reserves it again. */
  function Forgetting(early: int, now: int, clock: int, tokens: int): seq<Action> {
    [Reserve(early, Announced(1, tokens)), Record(Spent(1, early, tokens), now), Reserve(clock, Announced(2, tokens))]
  }

  /**
   The converse for pruning: whenever a time and a later one are on the same day, and a recording in
   between prunes what is as old as the first, a fair run that never leaves the day exceeds the budget.
   */
  lemma ForgottenDayOvershoots(config: Config, early: int, now: int, clock: int)
    requires config.budget.tokens > 0 && config.budget.cost > 0.0
    requires config.zone(early) == config.zone(clock) && early != ZERO_TIME
    requires 0 <= now && early < now - config.retention
    ensures var actions := Forgetting(early, now, clock, config.budget.tokens);
      && Start(EmptyWorld(), config) && FairRun(EmptyWorld(), config, actions)
      && !Revisits(ReserveDays(actions, config.zone))
      && ForgottenDayReturns(EmptyWorld(), config, actions)
      && !WithinBudget(After(EmptyWorld(), config, actions), config)
  {
    hide AfterReserve, AfterRecord, Fair, Start, WithinBudget, Forgets, CallerId;
    var tokens := config.budget.tokens;
    var actions := Forgetting(early, now, clock, tokens);
    var day, mine := config.zone(early), Reservation(config.zone(early), Usage(tokens, 0.0));
    var reserved := World(Tracking([], map[CallerId(1) := mine], None, {}, 0), map[CallerId(1) := mine], []);
    var pruned := Tracking([], map[], None, {}, now + HOUR);
    var forgotten := World(pruned, map[], [Spent(1, early, tokens)]);
    EmptyIsStart(config);
    assert OnDay(map[], day) == map[];
    FreshGrant(EmptyWorld().tracking, config, early, 1);
    SpentIsPruned(reserved, config, early, now, mine);
    FreshGrant(pruned, config, clock, 2);
    assert actions[..0] == [] && actions[..1] == [actions[0]] && actions[..2] == [actions[0], actions[1]];
    assert After(EmptyWorld(), config, actions[..1]) == reserved;
    assert After(EmptyWorld(), config, actions[..2]) == forgotten;
    assert actions[..3] == actions;
    assert ReserveDays(actions, config.zone) == [day, day] by {
      assert actions[..2][..1] == actions[..1];
      assert ReserveDays(actions[..2], config.zone) == ReserveDays(actions[..1], config.zone) == [day];
    }
    assert FairRun(EmptyWorld(), config, actions) by {
      NotGranted(forgotten, config, actions[2]);
      NotGranted(EmptyWorld(), config, actions[0]);
    }
    assert ForgottenDayReturns(EmptyWorld(), config, actions) by {
      assert actions[..2][..1] == actions[..1] && actions[..2][1] == actions[1];
      assert !Remembered(EmptyWorld(), config, actions[..2], config.zone(actions[2].clock));
    }
    var last := After(EmptyWorld(), config, actions);
    assert last.recorded == [Spent(1, early, tokens)] && last.granted == map[CallerId(2) := mine];
    RecordedAndGranted(last, config, early, 1, CallerId(2));
  }

  /** Two calls reserve the whole budget on two days; the later one is recorded on the day of the first. */
  function Misdated(stamp: int, clock: int, now: int, tokens: int): seq<Action> {
    [Reserve(stamp, Announced(1, tokens)), Reserve(clock, Announced(2, tokens)), Record(Spent(2, stamp, tokens), now)]
  }

  /**
   The third condition: a call that is stamped on one day and reserved on another exceeds the budget of
   the first, even if no day comes back and nothing is pruned before it is reserved on again.
   */
  lemma MisdatedCallOvershoots(config: Config, stamp: int, clock: int, now: int)
    requires config.budget.tokens > 0 && config.budget.cost > 0.0
    requires config.zone(stamp) != config.zone(clock) && stamp != ZERO_TIME
    ensures var actions := Misdated(stamp, clock, now, config.budget.tokens);
      && Start(EmptyWorld(), config)
      && (forall i :: 0 <= i < |actions| ==> KeepsToReservation(After(EmptyWorld(), config, actions[..i]), actions[i]))
      && ReserveDays(actions, config.zone) == [config.zone(stamp), config.zone(clock)]
      && !ForgottenDayReturns(EmptyWorld(), config, actions)
      && !WithinBudget(After(EmptyWorld(), config, actions), config)
  {
    hide AfterReserve, AfterRecord, KeepsToDay, KeepsToReservation, Start, WithinBudget, CallerId, Cleaned, Forgets;
    var tokens := config.budget.tokens;
    var actions := Misdated(stamp, clock, now, tokens);
    var share := Usage(tokens, 0.0);
    var first, second := Reservation(config.zone(stamp), share), Reservation(config.zone(clock), share);
    var one := World(Tracking([], map[CallerId(1) := first], None, {}, 0), map[CallerId(1) := first], []);
    EmptyIsStart(config);
    assert OnDay(map[], config.zone(stamp)) == map[];
    FreshGrant(EmptyWorld().tracking, config, stamp, 1);
    assert OnDay(one.tracking.reservations, config.zone(clock)) == map[];
    FreshGrant(one.tracking, config, clock, 2);
    assert actions[..0] == [] && actions[..1] == [actions[0]] && actions[..2][..1] == actions[..1] && actions[..3] == actions;
    assert actions[..3][..2] == actions[..2];
    assert After(EmptyWorld(), config, actions[..1]) == one;
    var two := After(EmptyWorld(), config, actions[..2]);
    assert two.granted == map[CallerId(1) := first][CallerId(2) := second] && two.recorded == [];
    KeptAsIs(Spent(2, stamp, tokens), now);
    SecondRecorded(two, actions[2], first, second);
    NotGranted(EmptyWorld(), config, actions[0]);
    CallersDiffer();
    NewCaller(one, actions[1]);
    var last := After(EmptyWorld(), config, actions);
    assert last.recorded == [Spent(2, stamp, tokens)] && last.granted == map[CallerId(1) := first];
    assert ReserveDays(actions, config.zone) == [config.zone(stamp), config.zone(clock)] by {
      assert ReserveDays(actions[..2], config.zone) == ReserveDays(actions[..1], config.zone) + [config.zone(clock)];
    }
    NoRecordingBefore(EmptyWorld(), config, actions);
    RecordedAndGranted(last, config, stamp, 2, CallerId(1));
  }

  lemma CallersDiffer()
    ensures CallerId(1) != CallerId(2)
  {
    assert |CallerId(1)| != |CallerId(2)|;
  }

  lemma NewCaller(w: World, action: Action)
    requires action.Reserve? && action.event.id !in w.granted
    ensures KeepsToReservation(w, action)
  {
  }

  lemma SecondRecorded(w: World, action: Action, first: Reservation, second: Reservation)
    requires action.Record? && action.event.id == CallerId(2) && Cleaned(action.event, action.now) == action.event
    requires w.granted == map[CallerId(1) := first][CallerId(2) := second]
    requires Usage(action.event.inputTokens + action.event.outputTokens, action.event.cost) == second.usage
    ensures KeepsToReservation(w, action)
    ensures w.granted - {action.event.id} == map[CallerId(1) := first]
  {
    hide CallerId, Cleaned;
    CallersDiffer();
    CleanedIsKept(action.event, action.now);
  }

  /** A run whose recordings all come after its reservations reserves on no forgotten day. */
  lemma NoRecordingBefore(w: World, config: Config, actions: seq<Action>)
    requires forall i, j :: 0 <= i < j < |actions| && actions[j].Reserve? ==> actions[i].Reserve?
    ensures !ForgottenDayReturns(w, config, actions)
  {
    hide After;
  }

  lemma NotGranted(w: World, config: Config, action: Action)
    requires action.Reserve? && w.granted == map[]
    ensures Fair(w, config, action)
  {
  }

  /** With nothing known and nothing reserved the whole budget is granted. */
  lemma FreshGrant(s: Tracking, config: Config, clock: int, n: nat)
    requires config.budget.tokens > 0 && config.budget.cost > 0.0
    requires s.events == [] && s.pausedDay == None && OnDay(s.reservations, config.zone(clock)) == map[]
    ensures var day := config.zone(clock);
      AfterReserve(s, config, day, Announced(n, config.budget.tokens)) ==
        (s.(reservations := map[CallerId(n) := Reservation(day, Usage(config.budget.tokens, 0.0))]), true)
  {
    hide AfterReserve, CallerId, OnDay;
    var day, event := config.zone(clock), Announced(n, config.budget.tokens);
    RoomIsGranted(s, config, day, event);
    GrantedStep(s, config, day, event);
  }

  /** A call recorded when it is already older than the retention leaves nothing behind. */
  lemma SpentIsPruned(w: World, config: Config, early: int, now: int, mine: Reservation)
    requires config.budget.tokens > 0 && config.budget.cost > 0.0
    requires early != ZERO_TIME && 0 <= now && early < now - config.retention
    requires mine == Reservation(config.zone(early), Usage(config.budget.tokens, 0.0))
    requires w == World(Tracking([], map[CallerId(1) := mine], None, {}, 0), map[CallerId(1) := mine], [])
    ensures var action := Record(Spent(1, early, config.budget.tokens), now);
      && Fair(w, config, action)
      && Forgets(w, config, action, config.zone(early))
      && Step(w, config, action) ==
         World(Tracking([], map[], None, {}, now + HOUR), map[], [Spent(1, early, config.budget.tokens)])
  {
    hide CallerId, AfterRecord, Cleaned;
    var event := Spent(1, early, config.budget.tokens);
    KeptAsIs(event, now);
    PrunedAtOnce(w.tracking, config, event, now);
    assert InsertSorted([], event) == [event];
    assert [event][0].ts == early;
    assert TimeOn([event], config.zone, config.zone(early), early);
    assert map[CallerId(1) := mine] - {CallerId(1)} == map[];
  }

  lemma KeptAsIs(event: Event, now: int)
    requires event.ts != ZERO_TIME && event.status != ""
    requires event.inputTokens >= 0 && event.outputTokens >= 0 && event.cost >= 0.0
    ensures Cleaned(event, now) == event
  {
  }

  /** The event goes in and out in one recording, with its reservation; an unused day is not paused. */
  lemma PrunedAtOnce(s: Tracking, config: Config, event: Event, now: int)
    requires config.budget.tokens > 0 && config.budget.cost > 0.0
    requires s.events == [] && s.pausedDay == None && s.pausedAlerts == {} && s.nextPrune <= now
    requires s.reservations.Keys == {event.id}
    requires Cleaned(event, now) == event && event.ts < now - config.retention
    ensures AfterRecord(s, config, event, now) == s.(reservations := map[], nextPrune := now + HOUR)
  {
    hide Cleaned;
    assert InsertSorted([], event) == [event];
    assert [event][..0] == [];
    assert Since([event], now - config.retention) == [];
    assert s.reservations - {event.id} == map[];
  }

  lemma RecordedAndGranted(w: World, config: Config, early: int, n: nat, id: string)
    requires config.budget.tokens > 0
    requires w.recorded == [Spent(n, early, config.budget.tokens)]
    requires w.granted == map[id := Reservation(config.zone(early), Usage(config.budget.tokens, 0.0))]
    ensures !WithinBudget(w, config)
  {
    hide CallerId;
    var day := config.zone(early);
    WithinFits(w, config);
    assert Fits(w, config) ==> NoMore(Committed(w, config, day), config.budget);
    UsageOfAppended([], Spent(n, early, config.budget.tokens), config.zone, day);
    assert OnDay(w.granted, day) == w.granted;
    TotalOfOne(w.granted, id);
  }

  lemma EmptyIsStart(config: Config)
    requires config.budget.tokens > 0 && config.budget.cost > 0.0
    ensures Start(EmptyWorld(), config)
  {
    WithinFits(EmptyWorld(), config);
    forall day ensures NoMore(Committed(EmptyWorld(), config, day), config.budget) {
      assert OnDay(map[], day) == map[];
    }
  }

  lemma TwiceTheBudget(w: World, config: Config, days: seq<int>, i: nat, j: nat, k: nat)
    requires i < j < k < |days| && days[i] == days[k]
    requires config.budget.tokens > 0
    requires Overshot(w, days, i, j, k, config.budget.tokens, k + 1)
    ensures !WithinBudget(w, config)
  {
    WithinFits(w, config);
    assert Fits(w, config) ==> NoMore(Committed(w, config, days[i]), config.budget);
    var shared := OnDay(w.granted, days[i]);
    assert w.granted[CallerId(i)] == Share(days, i, k, config.budget.tokens, i);
    assert w.granted[CallerId(k)] == Share(days, i, k, config.budget.tokens, k);
    assert |CallerId(i)| != |CallerId(k)|;
    TotalWithout(shared, CallerId(i));
    TotalWithout(shared - {CallerId(i)}, CallerId(k));
    var rest := shared - {CallerId(i)} - {CallerId(k)};
    forall id | id in rest ensures NoMore(Usage(0, 0.0), rest[id].usage) {
      assert w.granted[CallerId(|id|)] == Share(days, i, k, config.budget.tokens, |id|);
    }
    TotalIsNonNegative(rest);
  }
}
