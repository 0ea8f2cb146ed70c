/**
 The per-symbol lock table of internal/runtime/symbols.go. Threads interleave atomic steps: entering
 the table, taking the semaphore, giving up, finishing, and leaving the table. Entries are deleted
 when their last reference goes and created anew later.
 */
module LockTable {

  type Thread = nat

  /** A lock entry: its one-place semaphore and its reference counter. */
  datatype Entry = Entry(held: bool, references: int)

  /** Where a thread is inside Do; a thread outside of Do has no phase. */
  datatype Phase<+Id> =
    | Waiting(key: string, entry: Id)
    | Running(key: string, entry: Id)
    | Draining(key: string, entry: Id)

  /** The table, every entry ever created, and the threads inside Do. */
  datatype Table<Id(==)> = Table(locks: map<string, Id>, entries: map<Id, Entry>, threads: map<Thread, Phase<Id>>)

  ghost predicate WellTyped<Id>(s: Table<Id>) {
    && (forall k :: k in s.locks ==> s.locks[k] in s.entries)
    && (forall t :: t in s.threads ==> s.threads[t].entry in s.entries)
  }

  // ---- the atomic steps ----

  /** entryFor: the mapped entry, or a new one, with one more reference. */
  function Enter<Id(==)>(s: Table<Id>, t: Thread, key: string, created: Id): Table<Id>
    requires WellTyped(s)
  {
    if key in s.locks then
      var e := s.locks[key];
      Table(s.locks, s.entries[e := s.entries[e].(references := s.entries[e].references + 1)],
            s.threads[t := Waiting(key, e)])
    else
      Table(s.locks[key := created], s.entries[created := Entry(false, 1)], s.threads[t := Waiting(key, created)])
  }

  /** The semaphore takes the thread in. */
  function Acquire<Id(==)>(s: Table<Id>, t: Thread): Table<Id>
    requires WellTyped(s) && t in s.threads
  {
    var e := s.threads[t].entry;
    s.(entries := s.entries[e := s.entries[e].(held := true)], threads := s.threads[t := Running(s.threads[t].key, e)])
  }

  /** The caller's context ends first. */
  function Cancel<Id(==)>(s: Table<Id>, t: Thread): Table<Id>
    requires t in s.threads
  {
    s.(threads := s.threads[t := Draining(s.threads[t].key, s.threads[t].entry)])
  }

  /** The operation is over: the semaphore is given back. */
  function Finish<Id(==)>(s: Table<Id>, t: Thread): Table<Id>
    requires WellTyped(s) && t in s.threads
  {
    var e := s.threads[t].entry;
    s.(entries := s.entries[e := s.entries[e].(held := false)], threads := s.threads[t := Draining(s.threads[t].key, e)])
  }

  /** release: one reference less; the last one deletes the entry if it is still the mapped one. */
  function Release<Id(==)>(s: Table<Id>, t: Thread): Table<Id>
    requires WellTyped(s) && t in s.threads
  {
    var (key, e) := (s.threads[t].key, s.threads[t].entry);
    var references := s.entries[e].references - 1;
    Table(if references == 0 && key in s.locks && s.locks[key] == e then s.locks - {key} else s.locks,
          s.entries[e := s.entries[e].(references := references)],
          s.threads - {t})
  }

  ghost predicate Next<Id(!new)>(s: Table<Id>, next: Table<Id>) { WellTyped(s) && exists t :: ThreadStep(s, t, next) }

  ghost predicate ThreadStep<Id(!new)>(s: Table<Id>, t: Thread, next: Table<Id>)
    requires WellTyped(s)
  {
    if t !in s.threads then exists key, created :: CanEnter(s, t, key, created) && next == Enter(s, t, key, created)
    else match s.threads[t]
      case Waiting(_, e) => next == Cancel(s, t) || (!s.entries[e].held && next == Acquire(s, t))
      case Running(_, _) => next == Finish(s, t)
      case Draining(_, _) => next == Release(s, t)
  }

  /** A thread outside of Do, and a new object if the table needs one. */
  predicate CanEnter<Id(==)>(s: Table<Id>, t: Thread, key: string, created: Id) {
    t !in s.threads && (key !in s.locks ==> created !in s.entries)
  }

  ghost predicate IsRun<Id(!new)>(run: seq<Table<Id>>) {
    && run != []
    && run[0] == Table(map[], map[], map[])
    && forall i :: 0 < i < |run| ==> Next(run[i - 1], run[i])
  }

  // ---- the invariant ----

  /** The threads inside Do under a key. */
  ghost function Holders<Id>(threads: map<Thread, Phase<Id>>, key: string): set<Thread> {
    set t | t in threads && threads[t].key == key
  }

  /** The threads whose operation runs under a key. */
  ghost function Runners<Id>(threads: map<Thread, Phase<Id>>, key: string): set<Thread> {
    set t | t in threads && threads[t].key == key && threads[t].Running?
  }

  /** The mapped entry counts the key's holders, and its semaphore the runners. */
  ghost predicate Counted<Id>(s: Table<Id>, key: string) {
    && key in s.locks && s.locks[key] in s.entries
    && s.entries[s.locks[key]].references == |Holders(s.threads, key)| > 0
    && |Runners(s.threads, key)| == if s.entries[s.locks[key]].held then 1 else 0
  }

  /** The thread's entry is the one in the table. */
  ghost predicate Mapped<Id>(s: Table<Id>, t: Thread) {
    t in s.threads && s.threads[t].key in s.locks && s.locks[s.threads[t].key] == s.threads[t].entry
  }

  ghost predicate Unshared<Id>(s: Table<Id>) {
    forall k, m :: k in s.locks && m in s.locks && s.locks[k] == s.locks[m] ==> k == m
  }

  ghost predicate Inv<Id>(s: Table<Id>) {
    && WellTyped(s) && Unshared(s)
    && (forall t :: t in s.threads ==> Mapped(s, t))
    && (forall k :: k in s.locks ==> Counted(s, k))
  }

  /** A step that leaves a key's entry and threads alone leaves its counts right. */
  lemma UntouchedKey<Id>(s: Table<Id>, next: Table<Id>, key: string)
    requires Counted(s, key)
    requires key in next.locks && next.locks[key] == s.locks[key]
    requires s.locks[key] in next.entries && next.entries[s.locks[key]] == s.entries[s.locks[key]]
    requires forall t :: t in s.threads && s.threads[t].key == key ==> t in next.threads && next.threads[t] == s.threads[t]
    requires forall t :: t in next.threads && next.threads[t].key == key ==> t in s.threads
    requires forall t :: t in next.threads && t in s.threads ==> next.threads[t].key == s.threads[t].key
    ensures Counted(next, key)
  {
    assert Holders(next.threads, key) == Holders(s.threads, key);
    assert Runners(next.threads, key) == Runners(s.threads, key);
  }

  lemma EnteredHolders<Id>(threads: map<Thread, Phase<Id>>, t: Thread, key: string, e: Id)
    requires t !in threads
    ensures var next := threads[t := Waiting(key, e)];
      && |Holders(next, key)| == |Holders(threads, key)| + 1
      && Runners(next, key) == Runners(threads, key)
  {
    assert Holders(threads[t := Waiting(key, e)], key) == Holders(threads, key) + {t};
  }

  lemma NobodyUnder<Id>(s: Table<Id>, key: string)
    requires key !in s.locks && forall u :: u in s.threads ==> Mapped(s, u)
    ensures Holders(s.threads, key) == {} && Runners(s.threads, key) == {}
  {
  }

  lemma EnteredKey<Id>(s: Table<Id>, t: Thread, key: string, created: Id)
    requires Inv(s) && CanEnter(s, t, key, created)
    ensures Counted(Enter(s, t, key, created), key)
  {
    hide Unshared, Holders, Runners;
    EnteredHolders(s.threads, t, key, if key in s.locks then s.locks[key] else created);
    if key in s.locks {
      assert Counted(s, key);
    } else {
      NobodyUnder(s, key);
    }
  }

  lemma EnterKeeps<Id>(s: Table<Id>, t: Thread, key: string, created: Id)
    requires Inv(s) && CanEnter(s, t, key, created)
    ensures Inv(Enter(s, t, key, created))
  {
    hide Counted;
    var next := Enter(s, t, key, created);
    forall k | k in next.locks ensures Counted(next, k) {
      if k == key {
        EnteredKey(s, t, key, created);
      } else {
        UntouchedKey(s, next, k);
      }
    }
    forall u | u in next.threads ensures Mapped(next, u) {
      assert u != t ==> Mapped(s, u);
    }
  }

  /** Changing one thread's phase and its entry's semaphore together. */
  lemma PhaseStep<Id>(s: Table<Id>, next: Table<Id>, t: Thread)
    requires Inv(s) && t in s.threads
    requires next.locks == s.locks && next.threads.Keys == s.threads.Keys
    requires next.threads[t].key == s.threads[t].key && next.threads[t].entry == s.threads[t].entry
    requires forall u :: u in s.threads && u != t ==> next.threads[u] == s.threads[u]
    requires next.entries.Keys == s.entries.Keys
    requires forall e :: e in s.entries && e != s.threads[t].entry ==> next.entries[e] == s.entries[e]
    requires Counted(next, s.threads[t].key)
    ensures Inv(next)
  {
    hide Counted;
    var key := s.threads[t].key;
    assert Mapped(s, t);
    forall k | k in next.locks ensures Counted(next, k) {
      if k != key {
        UntouchedKey(s, next, k);
      }
    }
    forall u | u in next.threads ensures Mapped(next, u) {
      assert Mapped(s, u);
    }
  }

  lemma AcquireKeeps<Id>(s: Table<Id>, t: Thread)
    requires Inv(s) && t in s.threads && s.threads[t].Waiting? && !s.entries[s.threads[t].entry].held
    ensures Inv(Acquire(s, t))
  {
    var next, key := Acquire(s, t), s.threads[t].key;
    assert Mapped(s, t) && Counted(s, key);
    assert Holders(next.threads, key) == Holders(s.threads, key);
    assert Runners(next.threads, key) == Runners(s.threads, key) + {t};
    PhaseStep(s, next, t);
  }

  lemma CancelKeeps<Id>(s: Table<Id>, t: Thread)
    requires Inv(s) && t in s.threads && s.threads[t].Waiting?
    ensures Inv(Cancel(s, t))
  {
    var next, key := Cancel(s, t), s.threads[t].key;
    assert Mapped(s, t) && Counted(s, key);
    assert Holders(next.threads, key) == Holders(s.threads, key);
    assert Runners(next.threads, key) == Runners(s.threads, key);
    PhaseStep(s, next, t);
  }

  lemma FinishKeeps<Id>(s: Table<Id>, t: Thread)
    requires Inv(s) && t in s.threads && s.threads[t].Running?
    ensures s.entries[s.threads[t].entry].held
    ensures Inv(Finish(s, t))
  {
    var next, key := Finish(s, t), s.threads[t].key;
    assert Mapped(s, t) && Counted(s, key);
    assert t in Runners(s.threads, key);
    assert Holders(next.threads, key) == Holders(s.threads, key);
    assert Runners(next.threads, key) == Runners(s.threads, key) - {t};
    PhaseStep(s, next, t);
  }

  lemma ReleasedKey<Id>(s: Table<Id>, t: Thread)
    requires Inv(s) && t in s.threads && s.threads[t].Draining?
    ensures var key, next := s.threads[t].key, Release(s, t);
      if key in next.locks then Counted(next, key) else Holders(next.threads, key) == {}
  {
    var next, key := Release(s, t), s.threads[t].key;
    assert Mapped(s, t) && Counted(s, key);
    assert t in Holders(s.threads, key);
    assert Holders(next.threads, key) == Holders(s.threads, key) - {t};
    assert |Holders(next.threads, key)| == 0 ==> Holders(next.threads, key) == {};
    assert Runners(next.threads, key) == Runners(s.threads, key);
  }

  lemma ReleaseKeeps<Id>(s: Table<Id>, t: Thread)
    requires Inv(s) && t in s.threads && s.threads[t].Draining?
    ensures Inv(Release(s, t))
  {
    hide Counted;
    var next, key := Release(s, t), s.threads[t].key;
    assert Mapped(s, t);
    ReleasedKey(s, t);
    forall k | k in next.locks ensures Counted(next, k) {
      if k != key {
        UntouchedKey(s, next, k);
      }
    }
    forall u | u in next.threads ensures Mapped(next, u) {
      assert Mapped(s, u);
      assert next.threads[u].key == key ==> u in Holders(next.threads, key);
    }
  }

  lemma StepKeepsInvariant<Id(!new)>(s: Table<Id>, next: Table<Id>)
    requires Inv(s) && Next(s, next)
    ensures Inv(next)
  {
    hide Enter, Acquire, Cancel, Finish, Release, Counted, Mapped, Unshared;
    var t :| ThreadStep(s, t, next);
    if t !in s.threads {
      var key, created :| CanEnter(s, t, key, created) && next == Enter(s, t, key, created);
      EnterKeeps(s, t, key, created);
    } else if s.threads[t].Running? {
      FinishKeeps(s, t);
    } else if s.threads[t].Draining? {
      ReleaseKeeps(s, t);
    } else if next == Cancel(s, t) {
      CancelKeeps(s, t);
    } else {
      AcquireKeeps(s, t);
    }
  }

  /**
   Under any interleaving of any number of threads: every thread's entry is the mapped one, reference
   counts are exact, and a full semaphore means exactly one running thread.
   */
  lemma {:induction false} RunsKeepInvariant<Id(!new)>(run: seq<Table<Id>>, i: nat)
    requires IsRun(run) && i < |run|
    ensures Inv(run[i])
  {
    if i > 0 {
      RunsKeepInvariant(run, i - 1);
      StepKeepsInvariant(run[i - 1], run[i]);
    }
  }

  /** At most one operation per key runs at any moment of any run. */
  lemma OneOperationPerSymbol<Id(!new)>(run: seq<Table<Id>>, i: nat, t: Thread, u: Thread)
    requires IsRun(run) && i < |run|
    requires t in run[i].threads && u in run[i].threads
    requires run[i].threads[t].Running? && run[i].threads[u].Running?
    requires run[i].threads[t].key == run[i].threads[u].key
    ensures t == u
  {
    RunsKeepInvariant(run, i);
    var s, key := run[i], run[i].threads[t].key;
    assert Mapped(s, t) && Counted(s, key);
    OnlyMember(Runners(s.threads, key), t, u);
  }

  lemma OnlyMember(s: set<Thread>, t: Thread, u: Thread)
    requires |s| <= 1 && t in s && u in s
    ensures t == u
  {
    assert |s - {t}| == 0;
  }

  /** When all threads have left, the table is empty again, although entries came and went. */
  lemma IdleTableIsEmpty<Id(!new)>(run: seq<Table<Id>>, i: nat)
    requires IsRun(run) && i < |run| && run[i].threads == map[]
    ensures run[i].locks == map[]
  {
    assert forall k :: Holders(run[i].threads, k) == {};
    RunsKeepInvariant(run, i);
  }

  /** A waiting thread can go ahead unless another one runs under the same key: no lock is lost. */
  lemma WaitingIsForARunner<Id(!new)>(run: seq<Table<Id>>, i: nat, t: Thread)
    requires IsRun(run) && i < |run|
    requires t in run[i].threads && run[i].threads[t].Waiting?
    ensures run[i].threads[t].entry in run[i].entries
    ensures run[i].entries[run[i].threads[t].entry].held <==>
      exists u :: u in run[i].threads && run[i].threads[u].Running? && run[i].threads[u].key == run[i].threads[t].key
  {
    RunsKeepInvariant(run, i);
    var s, key := run[i], run[i].threads[t].key;
    assert Mapped(s, t) && Counted(s, key);
    if s.entries[s.threads[t].entry].held {
      var u :| u in Runners(s.threads, key);
    } else {
      assert forall u :: u in s.threads && s.threads[u].Running? && s.threads[u].key == key ==> u in Runners(s.threads, key);
    }
  }
}

/** The table as the program keeps it: shared objects changed in place, one atomic step per method. */
module SymbolLocks {
  import opened Wrappers
  import opened LockTable

  datatype LockError = MissingContext | MissingOperation | MissingSymbol

  class SymbolLock {
    var held: bool
    var references: int

    constructor ()
      ensures !held && references == 0
    {
      held, references := false, 0;
    }
  }

  class SymbolLocks {
    var locks: map<string, SymbolLock>
    const normalize: string -> string
    ghost var made: set<SymbolLock>
    ghost var threads: map<Thread, Phase<SymbolLock>>

    ghost function Table(): Table<SymbolLock>
      reads this, made
    {
      LockTable.Table(locks, map e | e in made :: Entry(e.held, e.references), threads)
    }

    ghost predicate Valid()
      reads this, made
    {
      Inv(Table())
    }

    /** normalize stands for trimming and upper-casing. */
    constructor (normalize: string -> string)
      ensures Valid() && Table() == LockTable.Table(map[], map[], map[])
    {
      this.normalize := normalize;
      locks, made, threads := map[], {}, map[];
    }

    method Create(key: string) returns (entry: SymbolLock)
      modifies this`locks, this`made
      ensures fresh(entry)
      ensures Table() == old(Table()).(locks := old(locks)[key := entry], entries := old(Table().entries)[entry := Entry(false, 0)])
      ensures locks == old(locks)[key := entry] && made == old(made) + {entry}
    {
      entry := new SymbolLock();
      locks := locks[key := entry];
      made := made + {entry};
    }

    method EntryFor(ghost t: Thread, hasContext: bool, symbol: string, hasOperation: bool)
      returns (r: Result<(SymbolLock, string), LockError>)
      requires Valid() && t !in threads
      modifies this`locks, this`made, this`threads, locks.Values
      ensures Valid()
      ensures r == Err(MissingContext) <==> !hasContext
      ensures r == Err(MissingOperation) <==> hasContext && !hasOperation
      ensures r == Err(MissingSymbol) <==> hasContext && hasOperation && normalize(symbol) == ""
      ensures r.Err? ==> r.error in {MissingContext, MissingOperation, MissingSymbol}
      ensures r.Err? ==> Table() == old(Table())
      ensures r.Ok? ==>
        var (entry, key) := r.value;
        && key == normalize(symbol)
        && (key !in old(locks) ==> fresh(entry))
        && Table() == Enter(old(Table()), t, key, entry)
        && threads == old(threads)[t := Waiting(key, entry)]
    {
      hide Inv, Enter;
      if !hasContext {
        return Err(MissingContext);
      }
      if !hasOperation {
        return Err(MissingOperation);
      }
      var key := normalize(symbol);
      if key == "" {
        return Err(MissingSymbol);
      }
      var entry := Join(t, key);
      return Ok((entry, key));
    }

    /** The critical section of entryFor. */
    method Join(ghost t: Thread, key: string) returns (entry: SymbolLock)
      requires Valid() && t !in threads
      modifies this`locks, this`made, this`threads, locks.Values
      ensures Valid() && Table() == Enter(old(Table()), t, key, entry)
      ensures key !in old(locks) ==> fresh(entry)
      ensures threads == old(threads)[t := Waiting(key, entry)]
    {
      hide Counted, Mapped, Unshared;
      ghost var before := Table();
      if key in locks {
        entry := locks[key];
        assert entry in before.entries;
      } else {
        entry := Create(key);
      }
      EnterKeeps(before, t, key, entry);
      AddReference(t, key, entry);
      assert Table().entries == Enter(before, t, key, entry).entries;
    }

    method AddReference(ghost t: Thread, key: string, entry: SymbolLock)
      requires entry in made
      modifies entry`references, this`threads
      ensures var was := old(Table());
        Table() == was.(entries := was.entries[entry := was.entries[entry].(references := was.entries[entry].references + 1)],
                        threads := was.threads[t := Waiting(key, entry)])
    {
      entry.references := entry.references + 1;
      threads := threads[t := Waiting(key, entry)];
    }

    /** The semaphore takes the thread in; the step is possible only while it is empty. */
    method Acquire(ghost t: Thread, entry: SymbolLock)
      requires Valid() && t in threads && threads[t].Waiting? && threads[t].entry == entry && !entry.held
      modifies entry, this`threads
      ensures Valid() && Table() == LockTable.Acquire(old(Table()), t)
    {
      hide Counted, Unshared;
      ghost var before := Table();
      InTable(t);
      assert !before.entries[entry].held;
      AcquireKeeps(before, t);
      entry.held := true;
      threads := threads[t := Running(threads[t].key, entry)];
      assert Table() == LockTable.Acquire(before, t);
    }

    method Cancel(ghost t: Thread)
      requires Valid() && t in threads && threads[t].Waiting?
      modifies this`threads
      ensures Valid() && Table() == LockTable.Cancel(old(Table()), t)
    {
      CancelKeeps(Table(), t);
      threads := threads[t := Draining(threads[t].key, threads[t].entry)];
    }

    /** Gives the semaphore back; it is never empty then, so the receive does not block. */
    method Finish(ghost t: Thread, entry: SymbolLock)
      requires Valid() && t in threads && threads[t].Running? && threads[t].entry == entry
      modifies entry, this`threads
      ensures old(entry.held)
      ensures Valid() && Table() == LockTable.Finish(old(Table()), t)
    {
      FinishKeeps(Table(), t);
      InTable(t);
      assert Table().entries[entry].held;
      entry.held := false;
      threads := threads[t := Draining(threads[t].key, entry)];
    }

    method Release(ghost t: Thread, key: string, entry: SymbolLock)
      requires Valid() && t in threads && threads[t] == Draining(key, entry)
      modifies entry, this`threads, this`locks
      ensures Valid() && Table() == LockTable.Release(old(Table()), t)
    {
      hide Counted, Mapped, Unshared;
      ghost var before := Table();
      ReleaseKeeps(before, t);
      InTable(t);
      entry.references := entry.references - 1;
      if entry.references == 0 && key in locks && locks[key] == entry {
        locks := locks - {key};
      }
      threads := threads - {t};
      assert Table() == LockTable.Release(before, t);
    }

    lemma InTable(t: Thread)
      requires Valid() && t in threads
      ensures threads[t].entry in made
    {
      assert threads[t].entry in Table().entries;
    }
  }
}
