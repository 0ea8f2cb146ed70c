/**
 Log compaction (internal/persistence/repository.go): whole histories of the oldest terminal orders
 are dropped until the log fits its limit.
 */
module Compaction {
  import opened Wrappers
  import opened OrderTypes
  import opened OrderMachine
  import opened OrderLog

  const MAX_ORDER_EVENTS := 20_000

  /** The log without the events of some clients. */
  function Keep(log: seq<Event>, remove: set<string>): seq<Event> {
    if log == [] then []
    else
      var n := |log| - 1;
      Keep(log[..n], remove) + if log[n].client in remove then [] else [log[n]]
  }

  function Clients(log: seq<Event>): set<string> {
    if log == [] then {} else Clients(log[..|log| - 1]) + {log[|log| - 1].client}
  }

  /** Byte order of identifiers, which for well-formed text is the order of its characters. */
  predicate LexLess(a: string, b: string) {
    if b == "" then false
    else if a == "" then true
    else a[0] < b[0] || (a[0] == b[0] && LexLess(a[1..], b[1..]))
  }

  lemma {:induction false} LexIsTotal(a: string, b: string)
    ensures a == b || LexLess(a, b) || LexLess(b, a)
    ensures !(LexLess(a, b) && LexLess(b, a)) && !LexLess(a, a)
  {
    if a != "" && b != "" {
      LexIsTotal(a[1..], b[1..]);
      assert a == [a[0]] + a[1..] && b == [b[0]] + b[1..];
    }
    if a != "" {
      LexIsTotal(a[1..], a[1..]);
    }
  }

  lemma {:induction false} LexIsTransitive(a: string, b: string, c: string)
    requires LexLess(a, b) && LexLess(b, c)
    ensures LexLess(a, c)
  {
    if a != "" && a[0] == b[0] && b[0] == c[0] {
      LexIsTransitive(a[1..], b[1..], c[1..]);
    }
  }

  /** The first difference decides, and a proper prefix comes first. */
  ghost predicate ComesFirst(a: string, b: string) {
    exists n :: 0 <= n <= |a| && n <= |b| && a[..n] == b[..n] && if n < |a| then n < |b| && a[n] < b[n] else n < |b|
  }

  lemma {:induction false} LexMeans(a: string, b: string)
    ensures LexLess(a, b) <==> ComesFirst(a, b)
  {
    if a != "" && b != "" {
      LexMeans(a[1..], b[1..]);
      if ComesFirst(a, b) {
        var n :| 0 <= n <= |a| && n <= |b| && a[..n] == b[..n] && if n < |a| then n < |b| && a[n] < b[n] else n < |b|;
        if n > 0 {
          assert a[0] == a[..n][0] && b[0] == b[..n][0];
          assert a[1..][..n - 1] == a[..n][1..] && b[1..][..n - 1] == b[..n][1..];
        }
      }
      if a[0] == b[0] && ComesFirst(a[1..], b[1..]) {
        var n :| 0 <= n <= |a[1..]| && n <= |b[1..]| && a[1..][..n] == b[1..][..n]
          && if n < |a[1..]| then n < |b[1..]| && a[1..][n] < b[1..][n] else n < |b[1..]|;
        assert a[..n + 1] == [a[0]] + a[1..][..n] && b[..n + 1] == [b[0]] + b[1..][..n];
      }
      if a[0] < b[0] {
        assert a[..0] == b[..0];
      }
    } else if b != "" {
      assert a[..0] == b[..0];
    }
  }

  /** One client's events in a log, as the compaction tallies them. */
  datatype Group = Group(client: string, last: int, count: nat, terminal: bool)

  function GroupOf(log: seq<Event>, client: string): (g: Group)
    requires client in Clients(log)
    ensures g.client == client && g.count == |ClientEvents(log, client)|
  {
    var events := ClientEvents(log, client);
    HasEvents(log, client);
    Group(client, events[|events| - 1].ts, |events|, IsTerminal(events[|events| - 1].status))
  }

  lemma {:induction false} HasEvents(log: seq<Event>, client: string)
    ensures ClientEvents(log, client) != [] <==> client in Clients(log)
  {
    if log != [] {
      HasEvents(log[..|log| - 1], client);
    }
  }

  /** One more event changes its own client's group alone. */
  lemma GroupGrows(log: seq<Event>, client: string)
    requires log != [] && client in Clients(log)
    ensures var n := |log| - 1;
      if client == log[n].client then
        GroupOf(log, client)
        == Group(client, log[n].ts, |ClientEvents(log[..n], client)| + 1, IsTerminal(log[n].status))
      else
        client in Clients(log[..n]) && GroupOf(log, client) == GroupOf(log[..n], client)
  {
  }

  predicate Before(a: Group, b: Group) { a.last < b.last || (a.last == b.last && LexLess(a.client, b.client)) }

  lemma BeforeIsTotal(a: Group, b: Group)
    ensures a.client == b.client || Before(a, b) || Before(b, a)
    ensures !(Before(a, b) && Before(b, a)) && !Before(a, a)
  {
    LexIsTotal(a.client, b.client);
  }

  lemma BeforeIsTransitive(a: Group, b: Group, c: Group)
    requires Before(a, b) && Before(b, c)
    ensures Before(a, c)
  {
    if LexLess(a.client, b.client) && LexLess(b.client, c.client) {
      LexIsTransitive(a.client, b.client, c.client);
    }
  }

  predicate Terminal(log: seq<Event>, client: string) { client in Clients(log) && GroupOf(log, client).terminal }

  /** Terminal order a was finished before terminal order b. */
  predicate Older(log: seq<Event>, a: string, b: string)
    requires Terminal(log, a) && Terminal(log, b)
  {
    Before(GroupOf(log, a), GroupOf(log, b))
  }

  /** The members of remove that are older than a client. */
  function OlderThan(log: seq<Event>, remove: set<string>, client: string): set<string>
    requires Terminal(log, client)
  {
    set b | b in remove && Terminal(log, b) && Older(log, b, client)
  }

  /**
   The clients a compaction drops: none if the log fits; otherwise terminal ones, oldest first,
   each only because the log without all older ones was still too long, and enough to fit if
   terminal ones suffice.
   */
  ghost predicate IsRemoval(log: seq<Event>, limit: int, remove: set<string>) {
    if limit <= 0 || |log| <= limit then remove == {}
    else
      && (forall a :: a in remove ==> Terminal(log, a))
      && (forall a, b :: a in remove && Terminal(log, b) && Older(log, b, a) ==> b in remove)
      && (forall a :: a in remove ==> |Keep(log, OlderThan(log, remove, a))| > limit)
      && (|Keep(log, remove)| <= limit || forall b :: Terminal(log, b) ==> b in remove)
  }

  /** The log after a compaction. */
  ghost predicate Compacted(log: seq<Event>, limit: int, after: seq<Event>) {
    exists remove :: IsRemoval(log, limit, remove) && after == Keep(log, remove)
  }

  lemma {:induction false} KeepShrinks(log: seq<Event>, less: set<string>, more: set<string>)
    requires less <= more
    ensures |Keep(log, more)| <= |Keep(log, less)|
  {
    if log != [] {
      KeepShrinks(log[..|log| - 1], less, more);
    }
  }

  lemma {:induction false} KeepWithout(log: seq<Event>, remove: set<string>, client: string)
    requires client !in remove
    ensures |Keep(log, remove + {client})| == |Keep(log, remove)| - |ClientEvents(log, client)|
  {
    if log != [] {
      KeepWithout(log[..|log| - 1], remove, client);
    }
  }

  lemma {:induction false} KeepNothingRemoved(log: seq<Event>)
    ensures Keep(log, {}) == log
  {
    if log != [] {
      KeepNothingRemoved(log[..|log| - 1]);
      assert log == log[..|log| - 1] + [log[|log| - 1]];
    }
  }

  /** Each history is kept whole or dropped whole. */
  lemma {:induction false} KeepsHistoriesWhole(log: seq<Event>, remove: set<string>, client: string)
    ensures ClientEvents(Keep(log, remove), client) == if client in remove then [] else ClientEvents(log, client)
  {
    if log != [] {
      var n := |log| - 1;
      KeepsHistoriesWhole(log[..n], remove, client);
      var kept := Keep(log, remove);
      if log[n].client !in remove {
        assert kept[..|kept| - 1] == Keep(log[..n], remove);
      } else {
        assert kept == Keep(log[..n], remove);
      }
    }
  }

  /** One of two removals lies inside the other, and then they are the same. */
  lemma RemovalIsUnique(log: seq<Event>, limit: int, r: set<string>, s: set<string>)
    requires IsRemoval(log, limit, r) && IsRemoval(log, limit, s)
    ensures r == s
  {
    if limit > 0 && |log| > limit {
      if a :| a in r && a !in s {
        RemovalReaches(log, limit, s, r, a);
      } else if a :| a in s && a !in r {
        RemovalReaches(log, limit, r, s, a);
      }
    }
  }

  lemma RemovalReaches(log: seq<Event>, limit: int, small: set<string>, large: set<string>, a: string)
    requires limit > 0 && |log| > limit
    requires IsRemoval(log, limit, small) && IsRemoval(log, limit, large)
    requires a in large
    ensures a in small
  {
    if a !in small {
      forall b | b in small ensures b in OlderThan(log, large, a) {
        BeforeIsTotal(GroupOf(log, a), GroupOf(log, b));
      }
      KeepShrinks(log, small, OlderThan(log, large, a));
      assert false;
    }
  }

  /** Clients of the first groups of a list. */
  function ClientsOf(groups: seq<Group>): set<string> { set i | 0 <= i < |groups| :: groups[i].client }

  ghost predicate Sorted(groups: seq<Group>) {
    forall i, j :: 0 <= i < j < |groups| ==> Before(groups[i], groups[j])
  }

  /** The list holds every terminal client's group, and nothing else. */
  ghost predicate Candidates(log: seq<Event>, groups: seq<Group>) {
    && (forall i :: 0 <= i < |groups| ==> Terminal(log, groups[i].client) && groups[i] == GroupOf(log, groups[i].client))
    && (forall c :: Terminal(log, c) ==> c in ClientsOf(groups))
  }

  /** The tally of the first loop. */
  method GroupByClient(log: seq<Event>) returns (byClient: map<string, Group>)
    ensures byClient.Keys == Clients(log)
    ensures forall c :: c in Clients(log) ==> byClient[c] == GroupOf(log, c)
  {
    hide ClientEvents;
    byClient := map[];
    var i := 0;
    while i < |log|
      invariant 0 <= i <= |log|
      invariant byClient.Keys == Clients(log[..i])
      invariant forall c :: c in Clients(log[..i]) ==> byClient[c] == GroupOf(log[..i], c)
    {
      hide GroupOf;
      var event := log[i];
      assert log[..i + 1][..i] == log[..i];
      HasEvents(log[..i], event.client);
      forall c | c in Clients(log[..i + 1])
        ensures GroupOf(log[..i + 1], c) == if c == event.client
          then Group(c, event.ts, |ClientEvents(log[..i], c)| + 1, IsTerminal(event.status))
          else GroupOf(log[..i], c)
      {
        GroupGrows(log[..i + 1], c);
      }
      var count := if event.client in byClient then byClient[event.client].count else 0;
      byClient := byClient[event.client := Group(event.client, event.ts, count + 1, IsTerminal(event.status))];
      i := i + 1;
    }
    assert log[..i] == log;
  }

  /** The terminal groups, by last event and then by client. */
  method SortedCandidates(log: seq<Event>, byClient: map<string, Group>) returns (sorted: seq<Group>)
    requires byClient.Keys == Clients(log)
    requires forall c :: c in Clients(log) ==> byClient[c] == GroupOf(log, c)
    ensures Sorted(sorted) && Candidates(log, sorted)
  {
    hide GroupOf;
    sorted := [];
    var rest := byClient.Keys;
    while rest != {}
      invariant rest <= Clients(log)
      invariant Sorted(sorted)
      invariant forall g :: g in sorted ==>
        Terminal(log, g.client) && g.client !in rest && g == GroupOf(log, g.client)
      invariant forall c :: Terminal(log, c) && c !in rest ==> c in ClientsOf(sorted)
      decreases |rest|
    {
      var client :| client in rest;
      rest := rest - {client};
      if byClient[client].terminal {
        sorted := Insert(sorted, byClient[client]);
      }
    }
  }

  method Insert(groups: seq<Group>, group: Group) returns (sorted: seq<Group>)
    requires Sorted(groups)
    requires forall i :: 0 <= i < |groups| ==> groups[i].client != group.client
    ensures Sorted(sorted)
    ensures forall g :: g in sorted <==> g in groups || g == group
    ensures ClientsOf(sorted) == ClientsOf(groups) + {group.client}
  {
    var i := |groups|;
    while i > 0 && Before(group, groups[i - 1])
      invariant 0 <= i <= |groups|
      invariant forall j :: i <= j < |groups| ==> Before(group, groups[j])
    {
      i := i - 1;
    }
    forall j | 0 <= j < i ensures Before(groups[j], group) {
      BeforeIsTotal(group, groups[i - 1]);
      if j < i - 1 {
        BeforeIsTransitive(groups[j], groups[i - 1], group);
      }
    }
    sorted := groups[..i] + [group] + groups[i..];
    InsertedClients(groups, group, i);
  }

  lemma InsertedClients(groups: seq<Group>, group: Group, i: nat)
    requires i <= |groups|
    ensures var sorted := groups[..i] + [group] + groups[i..];
      && (forall g :: g in sorted <==> g in groups || g == group)
      && ClientsOf(sorted) == ClientsOf(groups) + {group.client}
  {
    var sorted := groups[..i] + [group] + groups[i..];
    forall g ensures g in sorted <==> g in groups || g == group {
      assert groups == groups[..i] + groups[i..];
    }
    forall c | c in ClientsOf(groups) + {group.client} ensures c in ClientsOf(sorted) {
      if c != group.client {
        var j :| 0 <= j < |groups| && groups[j].client == c;
        assert groups[j] in sorted;
      } else {
        assert sorted[i].client == c;
      }
    }
  }

  /** The sweep over the candidates: discards the oldest until the rest fits. */
  method Discard(log: seq<Event>, limit: int, candidates: seq<Group>) returns (discarded: set<string>)
    requires limit > 0 && |log| > limit
    requires Sorted(candidates) && Candidates(log, candidates)
    ensures IsRemoval(log, limit, discarded)
  {
    hide ClientsOf, Sorted, Candidates, IsRemoval;
    KeepNothingRemoved(log);
    NoClients(candidates[..0]);
    discarded := {};
    var remaining: int := |log|;
    var i := 0;
    while i < |candidates| && remaining > limit
      invariant 0 <= i <= |candidates|
      invariant discarded == ClientsOf(candidates[..i])
      invariant remaining == |Keep(log, discarded)|
      invariant forall j :: 0 <= j < i ==> |Keep(log, ClientsOf(candidates[..j]))| > limit
    {
      NextCandidate(log, candidates, i);
      KeepWithout(log, discarded, candidates[i].client);
      discarded := discarded + {candidates[i].client};
      remaining := remaining - candidates[i].count;
      i := i + 1;
    }
    PrefixIsRemoval(log, limit, candidates, i);
  }

  /** compactOrderEvents: keeps what the specification leaves. */
  method CompactOrderEvents(log: seq<Event>, limit: int) returns (compacted: seq<Event>)
    ensures Compacted(log, limit, compacted)
  {
    KeepNothingRemoved(log);
    if limit <= 0 || |log| <= limit {
      assert IsRemoval(log, limit, {});
      return log;
    }
    hide IsRemoval, GroupOf, Sorted, Candidates;
    var byClient := GroupByClient(log);
    var candidates := SortedCandidates(log, byClient);
    var discarded := Discard(log, limit, candidates);
    if discarded == {} {
      return log;
    }
    compacted := [];
    var i := 0;
    while i < |log|
      invariant 0 <= i <= |log|
      invariant compacted == Keep(log[..i], discarded)
    {
      assert log[..i + 1][..i] == log[..i];
      if log[i].client !in discarded {
        compacted := compacted + [log[i]];
      }
      i := i + 1;
    }
    assert log[..i] == log;
  }

  lemma NoClients(groups: seq<Group>)
    requires groups == []
    ensures ClientsOf(groups) == {}
  {
  }

  lemma NextCandidate(log: seq<Event>, groups: seq<Group>, i: nat)
    requires Sorted(groups) && Candidates(log, groups) && i < |groups|
    ensures groups[i].client !in ClientsOf(groups[..i])
    ensures ClientsOf(groups[..i + 1]) == ClientsOf(groups[..i]) + {groups[i].client}
    ensures groups[i].count == |ClientEvents(log, groups[i].client)|
  {
    forall j | 0 <= j < i ensures groups[j].client != groups[i].client {
      assert Before(groups[j], groups[i]);
      BeforeIsTotal(groups[i], groups[i]);
    }
    assert groups[..i + 1] == groups[..i] + [groups[i]];
  }

  lemma PrefixIsRemoval(log: seq<Event>, limit: int, groups: seq<Group>, i: nat)
    requires limit > 0 && |log| > limit
    requires Sorted(groups) && Candidates(log, groups) && i <= |groups|
    requires forall j :: 0 <= j < i ==> |Keep(log, ClientsOf(groups[..j]))| > limit
    requires i == |groups| || |Keep(log, ClientsOf(groups[..i]))| <= limit
    ensures IsRemoval(log, limit, ClientsOf(groups[..i]))
  {
    hide Keep, ClientsOf, OlderThan, GroupOf, Before, Sorted;
    forall a | a in ClientsOf(groups[..i]) {
      PrefixMember(log, limit, groups, i, a);
    }
    if i == |groups| {
      assert groups[..i] == groups;
    }
  }

  lemma PrefixMember(log: seq<Event>, limit: int, groups: seq<Group>, i: nat, a: string)
    requires Sorted(groups) && Candidates(log, groups) && i <= |groups|
    requires forall j :: 0 <= j < i ==> |Keep(log, ClientsOf(groups[..j]))| > limit
    requires a in ClientsOf(groups[..i])
    ensures Terminal(log, a)
    ensures forall b :: Terminal(log, b) && Older(log, b, a) ==> b in ClientsOf(groups[..i])
    ensures |Keep(log, OlderThan(log, ClientsOf(groups[..i]), a))| > limit
  {
    hide Keep, GroupOf, Before;
    var remove := ClientsOf(groups[..i]);
    var j :| 0 <= j < i && groups[..i][j].client == a;
    assert groups[j] == GroupOf(log, a);
    forall b | Terminal(log, b) && Older(log, b, a) ensures b in ClientsOf(groups[..j]) && b in remove {
      var k :| 0 <= k < |groups| && groups[k].client == b;
      BeforeIsTotal(groups[k], groups[j]);
      assert k < j;
      assert groups[..j][k].client == b && groups[..i][k].client == b;
    }
    assert OlderThan(log, remove, a) <= ClientsOf(groups[..j]);
    KeepShrinks(log, OlderThan(log, remove, a), ClientsOf(groups[..j]));
  }

  // ---- what a compaction means for replay ----

  /** A view without some orders, and without the events of these orders. */
  ghost predicate Restricted(kept: View, full: View, remove: set<string>) {
    && kept.orders == full.orders - remove
    && kept.applied == map id | id in full.applied && full.applied[id].client !in remove :: full.applied[id]
  }

  /** Replaying the compacted log builds the original orders, less the dropped ones. */
  lemma {:induction false} CompactionPreservesReplay(log: seq<Event>, remove: set<string>)
    requires DistinctIds(log) && Replay(log).Ok?
    ensures Replay(Keep(log, remove)).Ok?
    ensures Restricted(Replay(Keep(log, remove)).value, Replay(log).value, remove)
    ensures DistinctIds(Keep(log, remove))
  {
    KeepIsSubsequence(log, remove);
    if log != [] {
      hide Restricted, Materialize, Refusal;
      var n := |log| - 1;
      CompactionPreservesReplay(log[..n], remove);
      NewEventIsApplied(log);
      var kept := Keep(log[..n], remove);
      RestrictedStep(Replay(kept).value, Replay(log[..n]).value, remove, log[n]);
      if log[n].client !in remove {
        ReplayExtends(kept, log[n]);
      } else {
        assert Keep(log, remove) == kept;
      }
    }
  }

  lemma RestrictedStep(kept: View, full: View, remove: set<string>, event: Event)
    requires Restricted(kept, full, remove)
    requires Refusal(full, event).None?
    ensures event.client in remove ==> Restricted(kept, Materialize(full, event), remove)
    ensures event.client !in remove ==>
      && Refusal(kept, event).None?
      && Restricted(Materialize(kept, event), Materialize(full, event), remove)
  {
  }

  lemma {:induction false} KeepIsSubsequence(log: seq<Event>, remove: set<string>)
    ensures forall e :: e in Keep(log, remove) <==> e in log && e.client !in remove
    ensures DistinctIds(log) ==> DistinctIds(Keep(log, remove))
  {
    if log != [] {
      var n := |log| - 1;
      KeepIsSubsequence(log[..n], remove);
      assert log == log[..n] + [log[n]];
      if DistinctIds(log) {
        var init := Keep(log[..n], remove);
        forall i | 0 <= i < |init| ensures init[i].id != log[n].id {
          assert init[i] in log[..n];
        }
      }
    }
  }

  /** A compaction drops only orders that replay as terminal. */
  lemma RemovedOrdersAreTerminal(log: seq<Event>, limit: int, remove: set<string>, client: string)
    requires DistinctIds(log) && Replay(log).Ok?
    requires IsRemoval(log, limit, remove) && client in remove
    ensures client in Replay(log).value.orders && IsTerminal(Replay(log).value.orders[client].status)
  {
    HasEvents(log, client);
    ReplayKeepsHistories(log, client);
  }

  /** The last event of a client in a log. */
  ghost predicate LastOf(log: seq<Event>, client: string, i: int) {
    0 <= i < |log| && log[i].client == client && forall j :: i < j < |log| ==> log[j].client != client
  }

  /** A client's group is described by its last event. */
  lemma {:induction false} GroupOfLast(log: seq<Event>, client: string, i: int)
    requires LastOf(log, client, i)
    ensures client in Clients(log)
    ensures GroupOf(log, client).last == log[i].ts
    ensures Terminal(log, client) <==> log[i].status in {Closed, Canceled, Rejected, Failed}
  {
    var n := |log| - 1;
    if i < n {
      assert forall j :: 0 <= j < n ==> log[..n][j] == log[j];
      GroupOfLast(log[..n], client, i);
      GroupGrows(log, client);
    }
  }

  /**
   Oldest first: a removed client's last event is terminal, and every other client whose last event is
   terminal and earlier, or as early and of a smaller id, is removed too.
   */
  lemma RemovesOldestFirst(log: seq<Event>, limit: int, remove: set<string>, a: string, i: int, b: string, j: int)
    requires IsRemoval(log, limit, remove) && a in remove && LastOf(log, a, i) && LastOf(log, b, j)
    ensures log[i].status in {Closed, Canceled, Rejected, Failed}
    ensures (log[j].status in {Closed, Canceled, Rejected, Failed}
             && (log[j].ts < log[i].ts || (log[j].ts == log[i].ts && ComesFirst(b, a)))) ==> b in remove
  {
    hide Keep, ClientEvents, ComesFirst, LexLess;
    GroupOfLast(log, a, i);
    GroupOfLast(log, b, j);
    LexMeans(b, a);
  }

  /** What is still there as terminal was terminal before and was not removed. */
  lemma KeptTerminal(log: seq<Event>, remove: set<string>, client: string)
    requires Terminal(Keep(log, remove), client)
    ensures client !in remove && Terminal(log, client)
  {
    hide Keep, ClientEvents;
    HasEvents(log, client);
    HasEvents(Keep(log, remove), client);
    KeepsHistoriesWhole(log, remove, client);
  }

  /** A removal that does not reach the limit took every terminal client. */
  lemma NothingLeftToRemove(log: seq<Event>, limit: int, remove: set<string>, client: string)
    requires limit > 0 && IsRemoval(log, limit, remove)
    requires |Keep(log, remove)| > limit && Terminal(log, client)
    ensures client in remove
  {
    hide Keep, Terminal, OlderThan, Older;
    KeepNothingRemoved(log);
  }

  /** The result fits the limit unless no terminal order is left. */
  lemma CompactedFits(log: seq<Event>, limit: int, remove: set<string>, client: string)
    requires limit > 0 && IsRemoval(log, limit, remove)
    requires |Keep(log, remove)| > limit
    ensures !Terminal(Keep(log, remove), client)
  {
    hide Keep, Terminal, IsRemoval;
    if Terminal(Keep(log, remove), client) {
      KeptTerminal(log, remove, client);
      NothingLeftToRemove(log, limit, remove, client);
    }
  }
}
