/**
 The crash-safe state file of internal/persistence/file.go: an atomic rename where it works, else a
 replacement through a backup, with recovery at the next start. Every call may fail, and the
 process may die after any of them.
 */
module FileStore {
  import opened Wrappers

  datatype Path = Destination | Backup | Temporary

  /** A file holds a whole encoded state, or something that does not decode. */
  datatype Data<+T> = Whole(state: T) | Corrupt

  type Files<T> = map<Path, Data<T>>

  datatype StatResult = Exists | NotExist | StatFailed

  datatype FileError =
    | Interrupted | RecoverBackup | FinishRecovery | InspectBackup
    | ReplaceFailed | BackupExists | StageBackup | InstallFailed | RestoreFailed
    | EncodeFailed | ReadFailed | DecodeFailed

  datatype MutateError<+E> = Refused(reason: E) | Storage(error: FileError)

  /** What the store holds: the destination, or else the backup. */
  function Content<T>(files: Files<T>): Option<Data<T>> {
    if Destination in files then Some(files[Destination])
    else if Backup in files then Some(files[Backup])
    else None
  }

  /** The state a content decodes to; a store that was never written holds the empty state. */
  function Decoded<T>(content: Option<Data<T>>, empty: T): Option<T> {
    match content
    case None => Some(empty)
    case Some(Whole(state)) => Some(state)
    case Some(Corrupt) => None
  }

  /** The disk: which calls fail is arbitrary; the trace holds the files after every change. */
  class Disk<T(!new)> {
    var files: Files<T>
    var calls: nat
    const faults: nat -> bool
    ghost var trace: seq<Files<T>>

    constructor (initial: Files<T>, faults: nat -> bool)
      ensures files == initial && this.faults == faults && calls == 0 && trace == []
    {
      files, calls, trace := initial, 0, [];
      this.faults := faults;
    }

    method Stat(path: Path) returns (r: StatResult)
      modifies this`calls
      ensures calls == old(calls) + 1
      ensures r == if faults(old(calls)) then StatFailed else if path in files then Exists else NotExist
    {
      r := if faults(calls) then StatFailed else if path in files then Exists else NotExist;
      calls := calls + 1;
    }

    method Rename(from: Path, to: Path) returns (ok: bool)
      requires from != to
      modifies this
      ensures calls == old(calls) + 1
      ensures ok == (!faults(old(calls)) && from in old(files))
      ensures files == if ok then (old(files) - {from})[to := old(files)[from]] else old(files)
      ensures trace == old(trace) + [files]
    {
      ok := !faults(calls) && from in files;
      if ok {
        files := (files - {from})[to := files[from]];
      }
      calls, trace := calls + 1, trace + [files];
    }

    method Remove(path: Path) returns (ok: bool)
      modifies this
      ensures calls == old(calls) + 1
      ensures ok == (!faults(old(calls)) && path in old(files))
      ensures files == if ok then old(files) - {path} else old(files)
      ensures trace == old(trace) + [files]
    {
      ok := !faults(calls) && path in files;
      if ok {
        files := files - {path};
      }
      calls, trace := calls + 1, trace + [files];
    }

    /** The file, or nothing if it is missing; no value if the read fails. */
    method ReadFile(path: Path) returns (r: Option<Option<Data<T>>>)
      modifies this`calls
      ensures calls == old(calls) + 1
      ensures r == if faults(old(calls)) then None else Some(if path in files then Some(files[path]) else None)
    {
      r := if faults(calls) then None else Some(if path in files then Some(files[path]) else None);
      calls := calls + 1;
    }

    /** Creates, encodes and syncs the temporary file; a failure may leave a torn one behind. */
    method WriteTemporary(state: T) returns (ok: bool)
      modifies this
      ensures calls == old(calls) + 1 && ok == !faults(old(calls))
      ensures files == old(files)[Temporary := if ok then Whole(state) else Corrupt]
      ensures trace == old(trace) + [files]
    {
      ok := !faults(calls);
      files := files[Temporary := if ok then Whole(state) else Corrupt];
      calls, trace := calls + 1, trace + [files];
    }
  }

  /** Every crash point since a moment holds this content. */
  ghost predicate Stays<T(!new)>(trace: seq<Files<T>>, since: nat, content: Option<Data<T>>) {
    since <= |trace| && forall i :: since <= i < |trace| ==> Content(trace[i]) == content
  }

  /** Since a moment the content was the old one, then at most once became the new one and stayed it. */
  ghost predicate Switches<T(!new)>(trace: seq<Files<T>>, since: nat, was: Option<Data<T>>, next: Option<Data<T>>) {
    exists k :: SwitchesAt(trace, since, k, was, next)
  }

  ghost predicate SwitchesAt<T(!new)>(trace: seq<Files<T>>, since: nat, k: nat, was: Option<Data<T>>, next: Option<Data<T>>) {
    && since <= k <= |trace|
    && (forall i :: since <= i < k ==> Content(trace[i]) == was)
    && (forall i :: k <= i < |trace| ==> Content(trace[i]) == next)
  }

  lemma StaysOn<T(!new)>(trace: seq<Files<T>>, since: nat, was: Option<Data<T>>, files: Files<T>)
    requires Stays(trace, since, was) && Content(files) == was
    ensures Stays(trace + [files], since, was)
  {
  }

  lemma SwitchesNow<T(
    !new)>(trace: seq<Files<T>>, since: nat, was: Option<Data<T>>, next: Option<Data<T>>, files: Files<T>)
    requires Stays(trace, since, was) && Content(files) == next
    ensures Switches(trace + [files], since, was, next)
  {
    assert SwitchesAt(trace + [files], since, |trace|, was, next);
  }

  lemma SwitchedOn<T(
    !new)>(trace: seq<Files<T>>, since: nat, was: Option<Data<T>>, next: Option<Data<T>>, files: Files<T>)
    requires Switches(trace, since, was, next) && Content(files) == next
    ensures Switches(trace + [files], since, was, next)
  {
    var k :| SwitchesAt(trace, since, k, was, next);
    assert SwitchesAt(trace + [files], since, k, was, next);
  }

  lemma NotSwitched<T(!new)>(trace: seq<Files<T>>, since: nat, was: Option<Data<T>>, next: Option<Data<T>>)
    requires Stays(trace, since, was)
    ensures Switches(trace, since, was, next)
  {
    assert SwitchesAt(trace, since, |trace|, was, next);
  }

  /** An earlier start that held the old content too. */
  lemma SwitchesSince<T(!new)>(trace: seq<Files<T>>, since: nat, was: Option<Data<T>>, next: Option<Data<T>>)
    requires since < |trace| && Content(trace[since]) == was
    requires Switches(trace, since + 1, was, next)
    ensures Switches(trace, since, was, next)
  {
    var k :| SwitchesAt(trace, since + 1, k, was, next);
    assert SwitchesAt(trace, since, k, was, next);
  }

  /** recoverInterruptedReplace never changes what the store holds. */
  method RecoverInterruptedReplace<T(!new)>(disk: Disk<T>) returns (error: Option<FileError>)
    modifies disk
    ensures Content(disk.files) == old(Content(disk.files))
    ensures Stays(disk.trace, |old(disk.trace)|, old(Content(disk.files)))
    ensures old(disk.trace) <= disk.trace
    ensures Temporary in disk.files <==> Temporary in old(disk.files)
    ensures Temporary in disk.files ==> disk.files[Temporary] == old(disk.files)[Temporary]
    ensures (forall n :: old(disk.calls) <= n < old(disk.calls) + RecoveryCalls(old(disk.files)) ==> !disk.faults(n)) ==>
      match Recovered(old(disk.files))
      case Some(files) => error.None? && disk.files == files && disk.calls == old(disk.calls) + RecoveryCalls(old(disk.files))
      case None => error.Some? && disk.files == old(disk.files)
    ensures error.None? && old(!disk.faults(disk.calls)) ==> (Destination in disk.files <==> Content(disk.files).Some?)
    ensures old(disk.faults(disk.calls)) ==> disk.files == old(disk.files)
    ensures old(disk.faults(disk.calls) && !disk.faults(disk.calls + 1)) ==>
      error.None? && disk.calls == old(disk.calls) + 2
  {
    var destination := disk.Stat(Destination);
    var backup := disk.Stat(Backup);
    if backup.Exists? && destination.NotExist? {
      var ok := disk.Rename(Backup, Destination);
      return if ok then None else Some(RecoverBackup);
    } else if backup.Exists? && destination.Exists? {
      var raw := disk.ReadFile(Destination);
      if raw.None? || raw.value.None? || raw.value.value.Corrupt? {
        return Some(Interrupted);
      }
      var ok := disk.Remove(Backup);
      return if ok then None else Some(FinishRecovery);
    } else if backup.StatFailed? {
      return Some(InspectBackup);
    }
    return None;
  }

  /** How many calls an undisturbed recovery makes. */
  function RecoveryCalls<T>(files: Files<T>): nat {
    if Backup !in files then 2 else if Destination in files then 4 else 3
  }

  /** The files after an undisturbed recovery; none if it refuses. */
  ghost function Recovered<T>(files: Files<T>): Option<Files<T>> {
    if Backup in files && Destination !in files then Some((files - {Backup})[Destination := files[Backup]])
    else if Backup in files && files[Destination].Corrupt? then None
    else Some(files - {Backup})
  }

  /** What an undisturbed start loads. */
  ghost function Restarted<T>(files: Files<T>, empty: T): Option<T> {
    match Recovered(files)
    case None => None
    case Some(recovered) => Decoded(if Destination in recovered then Some(recovered[Destination]) else None, empty)
  }

  /** A restart loads exactly what the store holds: the destination, or else the backup, or else the empty state. */
  lemma RestartLoadsContent<T>(files: Files<T>, empty: T)
    ensures Restarted(files, empty) == Decoded(Content(files), empty)
    ensures Restarted(files, empty) ==
      if Destination in files then (if files[Destination].Whole? then Some(files[Destination].state) else None)
      else if Backup in files then (if files[Backup].Whole? then Some(files[Backup].state) else None)
      else Some(empty)
  {
  }

  /**
   replaceFileRecoverably: success means the new state, any error the old one, and at every crash
   point in between the store holds one of the two. If no call fails but perhaps the direct rename, it
   succeeds, unless a backup stands beside an undecodable destination, or the rename failed although there
   was no file in the way.
   */
  method ReplaceFileRecoverably<T(!new)>(disk: Disk<T>) returns (error: Option<FileError>)
    requires Temporary in disk.files
    modifies disk
    ensures error.None? ==> Content(disk.files) == Some(old(disk.files[Temporary]))
    ensures error.Some? ==> Content(disk.files) == old(Content(disk.files))
    ensures old(disk.trace) <= disk.trace
    ensures error.Some? ==> Stays(disk.trace, |old(disk.trace)|, old(Content(disk.files)))
    ensures error.None? ==>
      Switches(disk.trace, |old(disk.trace)|, old(Content(disk.files)), Some(old(disk.files[Temporary])))
    ensures var direct := old(disk.calls) + RecoveryCalls(old(disk.files));
      (forall n :: old(disk.calls) <= n && n != direct ==> !disk.faults(n)) ==>
        (error.None? <==>
          && !old(Destination in disk.files && Backup in disk.files && disk.files[Destination].Corrupt?)
          && (disk.faults(direct) ==> old(Destination in disk.files || Backup in disk.files)))
  {
    hide Stays, Switches;
    ghost var since, was, next := |disk.trace|, Content(disk.files), Some(disk.files[Temporary]);
    error := RecoverInterruptedReplace(disk);
    if error.Some? {
      return;
    }
    ghost var trace := disk.trace;
    var ok := disk.Rename(Temporary, Destination);
    if ok {
      SwitchesNow(trace, since, was, next, disk.files);
      return None;
    }
    StaysOn(trace, since, was, disk.files);
    var destination := disk.Stat(Destination);
    if !destination.Exists? {
      return Some(ReplaceFailed);
    }
    var backup := disk.Stat(Backup);
    if backup.Exists? {
      return Some(BackupExists);
    } else if !backup.NotExist? {
      return Some(InspectBackup);
    }
    error := ReplaceThroughBackup(disk, since);
  }

  /** The second half of the replacement: the destination waits in the backup while the new file moves in. */
  method ReplaceThroughBackup<T(!new)>(disk: Disk<T>, ghost since: nat) returns (error: Option<FileError>)
    requires Temporary in disk.files && Destination in disk.files && Backup !in disk.files
    requires Stays(disk.trace, since, Content(disk.files))
    modifies disk
    ensures Content(disk.files) == if error.None? then Some(old(disk.files[Temporary])) else old(Content(disk.files))
    ensures old(disk.trace) <= disk.trace
    ensures error.Some? ==> Stays(disk.trace, since, old(Content(disk.files)))
    ensures error.None? ==> Switches(disk.trace, since, old(Content(disk.files)), Some(old(disk.files[Temporary])))
    ensures !disk.faults(old(disk.calls)) && !disk.faults(old(disk.calls) + 1) ==> error.None?
  {
    hide Stays, Switches;
    ghost var was, next := Content(disk.files), Some(disk.files[Temporary]);
    ghost var trace := disk.trace;
    var ok := disk.Rename(Destination, Backup);
    StaysOn(trace, since, was, disk.files);
    if !ok {
      return Some(StageBackup);
    }
    trace := disk.trace;
    ok := disk.Rename(Temporary, Destination);
    if !ok {
      StaysOn(trace, since, was, disk.files);
      trace := disk.trace;
      var restored := disk.Rename(Backup, Destination);
      StaysOn(trace, since, was, disk.files);
      return Some(if restored then InstallFailed else RestoreFailed);
    }
    SwitchesNow(trace, since, was, next, disk.files);
    trace := disk.trace;
    var _ := disk.Remove(Backup);
    SwitchedOn(trace, since, was, next, disk.files);
    return None;
  }

  /** writeStateAtomically, from the temporary file to its removal. */
  method WriteStateAtomically<T(!new)>(disk: Disk<T>, state: T) returns (error: Option<FileError>)
    modifies disk
    ensures Content(disk.files) == if error.None? then Some(Whole(state)) else old(Content(disk.files))
    ensures old(disk.trace) <= disk.trace
    ensures Switches(disk.trace, |old(disk.trace)|, old(Content(disk.files)), Some(Whole(state)))
    ensures (forall n :: old(disk.calls) <= n ==> !disk.faults(n)) ==>
      (error.None? <==> !old(Destination in disk.files && Backup in disk.files && disk.files[Destination].Corrupt?))
  {
    hide Switches;
    ghost var since, was, next := |disk.trace|, Content(disk.files), Some(Whole(state));
    var ok := disk.WriteTemporary(state);
    if ok {
      error := ReplaceFileRecoverably(disk);
    } else {
      error := Some(EncodeFailed);
    }
    ghost var trace := disk.trace;
    var _ := disk.Remove(Temporary);
    if error.None? {
      SwitchesSince(trace, since, was, next);
      SwitchedOn(trace, since, was, next, disk.files);
    } else {
      NotSwitched(disk.trace, since, was, next);
    }
  }

  /** The repository: the state in memory, and the disk it is kept on. */
  class FileRepository<T(!new)> {
    const disk: Disk<T>
    const empty: T
    var state: T

    /** Memory equals what a restart would load. */
    ghost predicate Valid()
      reads this, disk
    {
      Restarted(disk.files, empty) == Some(state)
    }

    constructor (disk: Disk<T>, empty: T, state: T)
      ensures this.disk == disk && this.empty == empty && this.state == state
    {
      this.disk, this.empty, this.state := disk, empty, state;
    }

    /**
     mutate: memory changes exactly if the operation and the write succeed, it still equals what a
     restart would load, and a crash at any point of the write leaves the old or the next state. If no
     call fails, every operation that is not refused succeeds.
     */
    method Mutate<E>(operation: T -> Result<T, E>) returns (error: Option<MutateError<E>>)
      requires Valid()
      modifies this`state, disk
      ensures Valid()
      ensures state == if error.None? && operation(old(state)).Ok? then operation(old(state)).value else old(state)
      ensures operation(old(state)).Err? ==> error == Some(Refused(operation(old(state)).error)) && disk.files == old(disk.files)
      ensures operation(old(state)).Ok? && (forall n :: old(disk.calls) <= n ==> !disk.faults(n)) ==> error.None?
      ensures old(disk.trace) <= disk.trace
      ensures forall i :: |old(disk.trace)| <= i < |disk.trace| ==>
        || Restarted(disk.trace[i], empty) == Some(old(state))
        || (operation(old(state)).Ok? && Restarted(disk.trace[i], empty) == Some(operation(old(state)).value))
    {
      var result := operation(state);
      if result.Err? {
        return Some(Refused(result.error));
      }
      ghost var was := Content(disk.files);
      RestartLoadsContent(disk.files, empty);
      var failed := WriteStateAtomically(disk, result.value);
      forall i | |old(disk.trace)| <= i < |disk.trace|
        ensures Restarted(disk.trace[i], empty) == Some(old(state)) || Restarted(disk.trace[i], empty) == Some(result.value)
      {
        RestartLoadsContent(disk.trace[i], empty);
      }
      RestartLoadsContent(disk.files, empty);
      if failed.Some? {
        return Some(Storage(failed.value));
      }
      state := result.value;
      return None;
    }
  }

  /** The inspection of a missing destination fails while there is a backup. */
  ghost predicate HidesBackup<T(!new)>(disk: Disk<T>)
    reads disk
  {
    Destination !in disk.files && Backup in disk.files && disk.faults(disk.calls)
  }

  /**
   NewFileRepository: a successful start holds the store's content, exactly except where a failed
   inspection of the missing destination hides a backup that holds more than the empty state. Such a
   start does succeed, with the empty state, if the next two calls do not fail.
   */
  method Open<T(!new)>(disk: Disk<T>, empty: T) returns (repository: FileRepository?<T>, error: Option<FileError>)
    modifies disk
    ensures error.None? <==> repository != null
    ensures Content(disk.files) == old(Content(disk.files))
    ensures repository != null ==>
      && fresh(repository) && repository.disk == disk && repository.empty == empty
      && (repository.Valid() <==> old(HidesBackup(disk) ==> disk.files[Backup] == Whole(empty)))
      && (old(HidesBackup(disk)) ==> repository.state == empty)
    ensures old(HidesBackup(disk) && !disk.faults(disk.calls + 1) && !disk.faults(disk.calls + 2)) ==> repository != null
    ensures (forall n :: !disk.faults(n)) ==>
      (error.None? <==>
        && (Destination in old(disk.files) ==> old(disk.files)[Destination].Whole?)
        && (Destination !in old(disk.files) && Backup in old(disk.files) ==> old(disk.files)[Backup].Whole?))
    ensures repository != null && !old(HidesBackup(disk)) ==>
      if Destination in old(disk.files) then old(disk.files)[Destination] == Whole(repository.state)
      else if Backup in old(disk.files) then old(disk.files)[Backup] == Whole(repository.state)
      else repository.state == empty
  {
    RestartLoadsContent(disk.files, empty);
    repository := null;
    error := RecoverInterruptedReplace(disk);
    if error.Some? {
      return;
    }
    var raw := disk.ReadFile(Destination);
    if raw.None? {
      return null, Some(ReadFailed);
    }
    var state := Decoded(raw.value, empty);
    if state.None? {
      return null, Some(DecodeFailed);
    }
    repository := new FileRepository(disk, empty, state.value);
    RestartLoadsContent(disk.files, empty);
  }

  /** What such a start loses: an undisturbed start would load the backup's state. */
  lemma HiddenBackupIsLost<T(!new)>(files: Files<T>, empty: T, state: T)
    requires Destination !in files && Backup in files && files[Backup] == Whole(state)
    ensures Restarted(files, empty) == Some(state)
    ensures Restarted(files, empty) == Some(empty) <==> state == empty
  {
    RestartLoadsContent(files, empty);
  }
}
