/**
 Backups and restores of a running Hub (src/backup.js): a restore takes a
 safety backup first and rolls back to it when anything fails afterwards.
 */
module BackupRestore {
  import opened Common
  import opened Files
  import opened DbReplace

  // ------------------------------------------------------------------ frames

  /** Nothing but the names in `ns` differs. */
  ghost predicate SameBut(d: Disk, s: Disk, ns: set<Name>) {
    && WellFormed(s) && s.next >= d.next
    && forall n: Name :: n !in ns ==> SameFile(d, s, n)
  }

  ghost predicate SameFile(d: Disk, s: Disk, n: Name) {
    SameBinding(d, s, n) && Read(s, n) == Read(d, n)
  }

  /** No other name for the same file. */
  predicate OwnFile(d: Disk, n: Name) {
    n in d.names ==> forall m <- d.names :: m != n ==> d.names[m] != d.names[n]
  }

  lemma WritingIsFramed(d0: Disk, d: Disk, s: Disk, n: Name, ns: set<Name>)
    requires n in ns && WellFormed(d) && SameBut(d0, d, ns) && OwnFile(d, n)
    requires CopyInto(d, s, n)
    ensures SameBut(d0, s, ns) && OwnFile(s, n)
  {
    forall m: Name | m !in ns ensures SameFile(d0, s, m) {
      assert SameFile(d0, d, m);
    }
  }

  lemma RemovingIsFramed(d0: Disk, d: Disk, n: Name, ns: set<Name>)
    requires n in ns && SameBut(d0, d, ns)
    ensures SameBut(d0, Unlinked(d, n), ns)
  {
    forall m: Name | m !in ns ensures SameFile(d0, Unlinked(d, n), m) {
      assert SameFile(d0, d, m);
    }
  }

  lemma RenamingIsFramed(d0: Disk, d: Disk, from: Name, to: Name, ns: set<Name>)
    requires from in ns && to in ns && from in d.names && SameBut(d0, d, ns)
    ensures SameBut(d0, Renamed(d, from, to), ns)
  {
    forall m: Name | m !in ns ensures SameFile(d0, Renamed(d, from, to), m) {
      assert SameFile(d0, d, m);
    }
  }

  // ------------------------------------------------------------- the restore

  datatype Ending =
    | Refused         // before anything was done to the database
    | NotStarted      // a hook failed before the replacement began
    | Restored
    | RolledBack      // failed; the rollback ran to its end
    | RollbackFailed

  /** The names a backup run may use. */
  function BackupNames(id: nat): set<Name> {
    {Partial(id), Backup(id)}
  }

  /** At every instant of a restore over an existing database: it is as it was
      at the start, or the safety backup is there, whole. */
  ghost predicate Recoverable(d0: Disk, s: Disk, safetyId: nat, safety: Content) {
    SameBut(d0, s, BackupNames(safetyId)) || Read(s, Backup(safetyId)) == Some(safety)
  }

  /** What a caller may rely on; `at` is the disk just after the last swap. */
  ghost predicate Ended(d0: Disk, d: Disk, at: Disk, source: nat, safetyId: nat, prepare: Prepare,
                          safety: Content, restorable: Content -> bool, o: Ending)
  {
    var existed := Live(Main) in d0.names;
    && (o == Refused ==> SameBut(d0, d, BackupNames(safetyId)))
    && (o == NotStarted ==> LiveOnly(at, d) && SameBut(d0, at, BackupNames(safetyId)))
    && (existed && o != Refused ==> Read(d, Backup(safetyId)) == Some(safety) && restorable(safety))
    && (o == Restored ==>
          SwappedIn(at, restorable) && LiveOnly(at, d)
          && Read(at, Live(Main)) == Staging(Read(d0, Backup(source)), Some(prepare)))
    && (o == RolledBack && existed ==>
          SwappedIn(at, restorable) && LiveOnly(at, d) && Read(at, Live(Main)) == Some(safety))
    && (o == RolledBack && !existed ==> LiveOnly(at, d) && Live(Wal) !in at.names && Live(Shm) !in at.names)
  }

  class BackupService {
    const fs: FileSystem
    /** What SQLite's backup makes of a main file and its -wal. */
    const snapshot: (Content, Option<Content>) -> Content
    /** The hooks called so far. */
    ghost var called: seq<Hook>

    constructor (fs: FileSystem, snapshot: (Content, Option<Content>) -> Content)
      ensures this.fs == fs && this.snapshot == snapshot && called == []
    {
      this.fs, this.snapshot, called := fs, snapshot, [];
    }

    function SafetyOf(d: Disk): Content
    {
      if Read(d, Live(Main)).Some? then snapshot(Read(d, Live(Main)).value, Read(d, Live(Wal))) else []
    }

    /** What the backup of this id holds once it is made: what a run already
        going has copied, or what the database holds now. */
    function BackedUp(begun: Option<Content>, d: Disk): Content
    {
      if begun.Some? then begun.value else SafetyOf(d)
    }

    /** Nothing is under the backup's own name yet, and only a run already going has its partial copy. */
    ghost predicate MayRun(id: nat, begun: Option<Content>, d: Disk) {
      && WellFormed(d) && Backup(id) !in d.names && OwnFile(d, Partial(id))
      && (Partial(id) in d.names ==> begun.Some?)
    }

    /** The last call, of which there was one. */
    lemma Called(was: seq<Call>)
      requires |fs.log| == |was| + 1 && fs.log == was + [fs.log[|was|]]
      ensures Faults(fs.log) == Faults(was) + if fs.log[|was|].possible && !fs.log[|was|].ok then 1 else 0
      ensures forall op :: Failed(fs.log, op) <==> Failed(was, op) || fs.log[|was|] == Call(op, true, false)
    {
      FaultsOneMore(was, fs.log[|was|]);
    }

    /** A database to copy and room for the copy, or a run that has begun already. */
    ghost predicate MayStart(begun: Option<Content>, room: bool, d: Disk) {
      begun.Some? || (Live(Main) in d.names && room)
    }

    /** Copies under a name nothing lists, and gives the copy its own name once it is
        checked. `begun`: the run was going already and has taken its snapshot. Without
        failing calls the backup is made exactly when it may start and its bytes pass. */
    method RunBackup(id: nat, begun: Option<Content>, room: bool) returns (made: bool)
      requires MayRun(id, begun, fs.disk)
      modifies fs`disk, fs`seen, fs`log
      ensures SameBut(old(fs.disk), fs.disk, BackupNames(id))
      ensures forall s <- fs.seen :: s in old(fs.seen) || SameBut(old(fs.disk), s, BackupNames(id))
      ensures made ==> Read(fs.disk, Backup(id)) == Some(BackedUp(begun, old(fs.disk)))
                       && MayStart(begun, room, old(fs.disk)) && fs.restorable(BackedUp(begun, old(fs.disk)))
      ensures !made ==> Backup(id) !in fs.disk.names
      ensures Faults(fs.log) >= Faults(old(fs.log))
      ensures Faults(fs.log) == Faults(old(fs.log)) ==>
                && made == (MayStart(begun, room, old(fs.disk)) && fs.restorable(BackedUp(begun, old(fs.disk))))
                && (begun.None? || made ==> Partial(id) !in fs.disk.names)
    {
      if begun.None? {
        var exists_ := fs.Exists(Live(Main));
        if !exists_ || !room {
          return false;
        }
      }
      made := CopyAndName(id, begun);
      if !made {
        ghost var log := fs.log;
        RemovingIsFramed(old(fs.disk), fs.disk, Partial(id), BackupNames(id));
        var _ := fs.Unlink(Partial(id));
        Called(log);
      }
    }

    method CopyAndName(id: nat, begun: Option<Content>) returns (made: bool)
      requires MayRun(id, begun, fs.disk)
      modifies fs`disk, fs`seen, fs`log
      ensures SameBut(old(fs.disk), fs.disk, BackupNames(id))
      ensures forall s <- fs.seen :: s in old(fs.seen) || SameBut(old(fs.disk), s, BackupNames(id))
      ensures made ==> Read(fs.disk, Backup(id)) == Some(BackedUp(begun, old(fs.disk)))
                       && fs.restorable(BackedUp(begun, old(fs.disk))) && Partial(id) !in fs.disk.names
      ensures !made ==> Backup(id) !in fs.disk.names
      ensures Faults(fs.log) >= Faults(old(fs.log))
      ensures !made && fs.restorable(BackedUp(begun, old(fs.disk))) ==> Faults(fs.log) > Faults(old(fs.log))
    {
      ghost var d0, log := fs.disk, fs.log;
      var bytes := BackedUp(begun, fs.disk);
      made := fs.Write(Partial(id), bytes);
      Called(log);
      forall s | CopyInto(d0, s, Partial(id)) ensures SameBut(d0, s, BackupNames(id)) && Backup(id) !in s.names {
        WritingIsFramed(d0, d0, s, Partial(id), BackupNames(id));
      }
      if made {
        log := fs.log;
        made := fs.Verify(Partial(id));
        Called(log);
      }
      if made {
        log := fs.log;
        RenamingIsFramed(d0, fs.disk, Partial(id), Backup(id), BackupNames(id));
        made := fs.Rename(Partial(id), Backup(id));
        Called(log);
      }
    }

    /** A caller's hook, when it gave one: connections close or open. */
    method RunHook(hook: Hook, given: bool) returns (ok: bool)
      requires WellFormed(fs.disk)
      modifies fs`disk, fs`seen, fs`log, this`called
      ensures called == old(called) + If(given, hook)
      ensures LiveOnly(old(fs.disk), fs.disk) && WellFormed(fs.disk)
      ensures forall s <- fs.seen :: s in old(fs.seen) || LiveOnly(old(fs.disk), s)
      ensures Faults(fs.log) >= Faults(old(fs.log)) && (!ok ==> given && Faults(fs.log) > Faults(old(fs.log)))
    {
      ok := true;
      if given {
        ghost var log := fs.log;
        ok := fs.Connections();
        called := called + [hook];
        Called(log);
      }
    }

    /** `replaceDb` with a fresh id. */
    method ReplaceDb(source: nat, id: nat, prepare: Option<Prepare>) returns (done: bool)
      requires WellFormed(fs.disk) && FreshId(fs.disk, id)
      modifies fs`disk, fs`seen, fs`log
      ensures WellFormed(fs.disk) && OthersKept(old(fs.disk), fs.disk, id) && BackupsKept(old(fs.disk), fs.disk)
      ensures forall s <- fs.seen :: s in old(fs.seen) || SafeReplace(old(fs.disk), s, id, fs.restorable)
      ensures done ==> SwappedIn(fs.disk, fs.restorable)
                       && Read(fs.disk, Live(Main)) == Staging(Read(old(fs.disk), Backup(source)), prepare)
      ensures Faults(fs.log) >= Faults(old(fs.log))
      ensures Faults(fs.log) == Faults(old(fs.log)) ==>
                var copy := Staging(Read(old(fs.disk), Backup(source)), prepare);
                done == (copy.Some? && fs.restorable(copy.value))
    {
      var replacement := new Replacement(fs, id);
      ghost var d0 := fs.disk;
      var r := replacement.Replace(source, prepare);
      ghost var calls := replacement.Calls();
      NoNewFaults(replacement.log0, calls);
      assert fs.log == replacement.log0 + calls;
      if NothingFailed(calls) {
        NothingFailedReplaces(d0, fs.disk, calls, id, source, prepare, r, fs.restorable);
      }
      done := r.Done?;
    }

    /** Removes a sidecar of a database that was not there before; failing to is an error. */
    method RemoveSidecar(x: Suffix) returns (ok: bool)
      requires WellFormed(fs.disk)
      modifies fs`disk, fs`seen, fs`log
      ensures LiveOnly(old(fs.disk), fs.disk) && WellFormed(fs.disk)
      ensures forall s <- fs.seen :: s in old(fs.seen) || LiveOnly(old(fs.disk), s)
      ensures if ok then Live(x) !in fs.disk.names else fs.disk == old(fs.disk)
      ensures forall y: Suffix :: y != x ==> SameBinding(old(fs.disk), fs.disk, Live(y))
      ensures Faults(fs.log) >= Faults(old(fs.log)) && (!ok ==> Faults(fs.log) > Faults(old(fs.log)))
    {
      var there := fs.Exists(Live(x));
      ok := true;
      if there {
        ghost var log := fs.log;
        ok := fs.Unlink(Live(x));
        Called(log);
      }
    }

    /** The database as it was: the safety backup, or none when there was none. */
    method Undo(existed: bool, safetyId: nat, id: nat) returns (ok: bool)
      requires WellFormed(fs.disk) && FreshId(fs.disk, id)
      requires existed ==> Read(fs.disk, Backup(safetyId)).Some?
      modifies fs`disk, fs`seen, fs`log
      ensures WellFormed(fs.disk)
      ensures Read(fs.disk, Backup(safetyId)) == old(Read(fs.disk, Backup(safetyId)))
      ensures forall s <- fs.seen :: s in old(fs.seen) || Read(s, Backup(safetyId)) == old(Read(fs.disk, Backup(safetyId)))
      ensures ok && existed ==>
                SwappedIn(fs.disk, fs.restorable) && Read(fs.disk, Live(Main)) == old(Read(fs.disk, Backup(safetyId)))
      ensures ok && !existed ==>
                && Live(Wal) !in fs.disk.names && Live(Shm) !in fs.disk.names
                && (Live(Main) !in fs.disk.names || SameBinding(old(fs.disk), fs.disk, Live(Main)))
      ensures Faults(fs.log) >= Faults(old(fs.log))
      ensures Faults(fs.log) == Faults(old(fs.log)) && (existed ==> fs.restorable(old(Read(fs.disk, Backup(safetyId)).value))) ==> ok
    {
      if existed {
        ok := ReplaceDb(safetyId, id, None);
      } else {
        var _ := RemoveSidecar(Main);
        ok := RemoveSidecar(Wal);
        if ok {
          ghost var d := fs.disk;
          ok := RemoveSidecar(Shm);
          assert SameBinding(d, fs.disk, Live(Wal)) && SameBinding(d, fs.disk, Live(Main));
        }
      }
    }

    /** Back to the safety backup, or to no database when there was none. */
    method Rollback(existed: bool, safetyId: nat, id: nat, beforeRollback: bool, afterRollback: bool)
      returns (ok: bool, ghost at: Disk, ghost hooked: Disk)
      requires WellFormed(fs.disk) && FreshId(fs.disk, id)
      requires existed ==> Read(fs.disk, Backup(safetyId)).Some?
      modifies fs`disk, fs`seen, fs`log, this`called
      ensures old(called) <= called
      ensures ok ==> called == old(called) + (If(beforeRollback, BeforeRollback) + If(afterRollback, AfterRollback))
      ensures WellFormed(fs.disk) && LiveOnly(at, fs.disk)
      ensures Read(fs.disk, Backup(safetyId)) == old(Read(fs.disk, Backup(safetyId)))
      ensures forall s <- fs.seen :: s in old(fs.seen) || Read(s, Backup(safetyId)) == old(Read(fs.disk, Backup(safetyId)))
      ensures ok && existed ==>
                SwappedIn(at, fs.restorable) && Read(at, Live(Main)) == old(Read(fs.disk, Backup(safetyId)))
      ensures LiveOnly(old(fs.disk), hooked)
      ensures ok && !existed ==>
                && Live(Wal) !in at.names && Live(Shm) !in at.names
                && (Live(Main) !in at.names || SameBinding(hooked, at, Live(Main)))
      ensures Faults(fs.log) >= Faults(old(fs.log))
      ensures Faults(fs.log) == Faults(old(fs.log)) && (existed ==> fs.restorable(old(Read(fs.disk, Backup(safetyId)).value))) ==> ok
    {
      ok := RunHook(BeforeRollback, beforeRollback);
      at, hooked := fs.disk, fs.disk;
      if !ok {
        return;
      }
      FreshAfterHook(old(fs.disk), fs.disk, id);
      ok := Undo(existed, safetyId, id);
      at := fs.disk;
      if ok {
        ok := RunHook(AfterRollback, afterRollback);
      }
    }

    /** `createBackup({ forRestore: true })` and a look at its result. */
    method TakeSafetyBackup(safetyId: nat, begun: Option<Content>, room: bool) returns (taken: bool)
      requires MayRun(safetyId, begun, fs.disk)
      modifies fs`disk, fs`seen, fs`log
      ensures SameBut(old(fs.disk), fs.disk, BackupNames(safetyId))
      ensures forall s <- fs.seen :: s in old(fs.seen) || SameBut(old(fs.disk), s, BackupNames(safetyId))
      ensures taken ==> Read(fs.disk, Backup(safetyId)) == Some(BackedUp(begun, old(fs.disk)))
                        && fs.restorable(BackedUp(begun, old(fs.disk)))
      ensures Faults(fs.log) >= Faults(old(fs.log))
      ensures Faults(fs.log) == Faults(old(fs.log)) ==>
                taken == (MayStart(begun, room, old(fs.disk)) && fs.restorable(BackedUp(begun, old(fs.disk))))
    {
      taken := RunBackup(safetyId, begun, room);
      if taken {
        taken := fs.Exists(Backup(safetyId));
      }
    }

    /** How a restore ends when no call fails: refused without a good backup or a safety
        backup, and otherwise only undone if what it prepares does not pass. */
    ghost function Undisturbed(d: Disk, source: nat, begun: Option<Content>, room: bool, prepare: Prepare): Ending {
      var bytes, existed := Read(d, Backup(source)), Live(Main) in d.names;
      if bytes.None? || !fs.restorable(bytes.value) then Refused
      else if existed && !(MayStart(begun, room, d) && fs.restorable(BackedUp(begun, d))) then Refused
      else if fs.restorable(prepare(bytes.value)) then Restored
      else RolledBack
    }

    /** From the first hook on: replace, and roll back if that or the hook after it fails. */
    method ReplaceOrRollBack(source: nat, existed: bool, safetyId: nat, firstId: nat, secondId: nat, prepare: Prepare,
                             hooks: Hooks)
      returns (o: Ending, ghost at: Disk)
      requires WellFormed(fs.disk) && FreshId(fs.disk, firstId) && FreshId(fs.disk, secondId) && firstId != secondId
      requires existed ==> Read(fs.disk, Backup(safetyId)).Some?
      modifies fs`disk, fs`seen, fs`log, this`called
      ensures HooksCalled(old(called), called, hooks, o)
      ensures WellFormed(fs.disk) && LiveOnly(at, fs.disk) && o != Refused
      ensures Read(fs.disk, Backup(safetyId)) == old(Read(fs.disk, Backup(safetyId)))
      ensures forall s <- fs.seen :: s in old(fs.seen) || Read(s, Backup(safetyId)) == old(Read(fs.disk, Backup(safetyId)))
      ensures o == NotStarted ==> at == old(fs.disk)
      ensures o == Restored ==>
                SwappedIn(at, fs.restorable)
                && Read(at, Live(Main)) == Staging(old(Read(fs.disk, Backup(source))), Some(prepare))
      ensures o == RolledBack && existed ==>
                SwappedIn(at, fs.restorable) && Read(at, Live(Main)) == old(Read(fs.disk, Backup(safetyId)))
      ensures o == RolledBack && !existed ==> Live(Wal) !in at.names && Live(Shm) !in at.names
      ensures Faults(fs.log) >= Faults(old(fs.log))
      ensures o == NotStarted ==> hooks.beforeReplace && Faults(fs.log) > Faults(old(fs.log))
      ensures Faults(fs.log) == Faults(old(fs.log)) && (existed ==> fs.restorable(old(Read(fs.disk, Backup(safetyId)).value))) ==>
                var copy := Staging(old(Read(fs.disk, Backup(source))), Some(prepare));
                o == if copy.Some? && fs.restorable(copy.value) then Restored else RolledBack
    {
      ghost var d0 := fs.disk;
      at := d0;
      var ok := RunHook(BeforeReplace, hooks.beforeReplace);
      FreshAfterHook(d0, fs.disk, firstId);
      FreshAfterHook(d0, fs.disk, secondId);
      if !ok {
        var _ := RunHook(AfterRollback, hooks.afterRollback);
        LiveOnlyTwice(d0, at, fs.disk);
        return NotStarted, at;
      }
      ok, at := ReplaceThenHook(source, safetyId, firstId, secondId, prepare, hooks.afterReplace);
      if ok {
        return Restored, at;
      }
      ghost var hooked;
      ok, at, hooked := Rollback(existed, safetyId, secondId, hooks.beforeRollback, hooks.afterRollback);
      o := if ok then RolledBack else RollbackFailed;
    }

    method ReplaceThenHook(source: nat, ghost safetyId: nat, firstId: nat, ghost secondId: nat, prepare: Prepare,
                           afterReplace: bool)
      returns (ok: bool, ghost at: Disk)
      requires WellFormed(fs.disk) && FreshId(fs.disk, firstId) && FreshId(fs.disk, secondId) && firstId != secondId
      modifies fs`disk, fs`seen, fs`log, this`called
      ensures called == old(called) || called == old(called) + If(afterReplace, AfterReplace)
      ensures ok ==> called == old(called) + If(afterReplace, AfterReplace)
      ensures WellFormed(fs.disk) && LiveOnly(at, fs.disk) && FreshId(fs.disk, secondId)
      ensures Read(fs.disk, Backup(safetyId)) == old(Read(fs.disk, Backup(safetyId)))
      ensures forall s <- fs.seen :: s in old(fs.seen) || Read(s, Backup(safetyId)) == old(Read(fs.disk, Backup(safetyId)))
      ensures ok ==> SwappedIn(at, fs.restorable)
                     && Read(at, Live(Main)) == Staging(old(Read(fs.disk, Backup(source))), Some(prepare))
      ensures Faults(fs.log) >= Faults(old(fs.log))
      ensures Faults(fs.log) == Faults(old(fs.log)) ==>
                var copy := Staging(old(Read(fs.disk, Backup(source))), Some(prepare));
                ok == (copy.Some? && fs.restorable(copy.value))
    {
      ghost var d := fs.disk;
      ok := ReplaceDb(source, firstId, Some(prepare));
      FreshAfterReplace(d, fs.disk, firstId, secondId);
      at := fs.disk;
      if ok {
        ok := RunHook(AfterReplace, afterReplace);
        FreshAfterHook(at, fs.disk, secondId);
      }
    }

    lemma FreshAfterHook(d: Disk, s: Disk, id: nat)
      requires LiveOnly(d, s) && FreshId(d, id)
      ensures FreshId(s, id)
    {
      assert SameBinding(d, s, Staged(id));
      forall x: Suffix ensures Replaced(id, x) !in s.names {
        assert SameBinding(d, s, Replaced(id, x));
      }
    }

    lemma FreshAfterReplace(d: Disk, s: Disk, id: nat, other: nat)
      requires OthersKept(d, s, id) && FreshId(d, other) && id != other
      ensures FreshId(s, other)
    {
      assert SameBinding(d, s, Staged(other));
      forall x: Suffix ensures Replaced(other, x) !in s.names {
        assert SameBinding(d, s, Replaced(other, x));
      }
    }

    lemma FreshAfterBackup(d: Disk, s: Disk, safetyId: nat, id: nat)
      requires SameBut(d, s, BackupNames(safetyId)) && FreshId(d, id)
      ensures FreshId(s, id)
    {
      assert SameFile(d, s, Staged(id));
      forall x: Suffix ensures Replaced(id, x) !in s.names {
        assert SameFile(d, s, Replaced(id, x));
      }
    }

    /**
     `restoreFromFileOnce`: verify, take a safety backup of an existing database,
     replace, and on any later failure roll back. The safety backup may be a run
     that was going already; `begun` is then what it has copied.
     */
    method RestoreFromFileOnce(source: nat, safetyId: nat, begun: Option<Content>, firstId: nat, secondId: nat,
                               prepare: Prepare, hooks: Hooks, room: bool)
      returns (o: Ending, ghost at: Disk)
      requires MayRun(safetyId, begun, fs.disk) && source != safetyId && firstId != secondId
      requires FreshId(fs.disk, firstId) && FreshId(fs.disk, secondId)
      modifies fs`disk, fs`seen, fs`log, this`called
      ensures HooksCalled(old(called), called, hooks, o)
      ensures Ended(old(fs.disk), fs.disk, at, source, safetyId, prepare, BackedUp(begun, old(fs.disk)),
                    fs.restorable, o)
      ensures Live(Main) in old(fs.disk).names ==>
                forall s <- fs.seen ::
                  s in old(fs.seen) || Recoverable(old(fs.disk), s, safetyId, BackedUp(begun, old(fs.disk)))
      ensures Faults(fs.log) == Faults(old(fs.log)) ==>
                o == Undisturbed(old(fs.disk), source, begun, room, prepare)
    {
      ghost var d0 := fs.disk;
      at := d0;
      assert SameBut(d0, d0, BackupNames(safetyId));
      var there := fs.Exists(Backup(source));
      if !there {
        return Refused, at;
      }
      ghost var log := fs.log;
      var sound := fs.Verify(Backup(source));
      Called(log);
      if !sound {
        return Refused, at;
      }
      var existed := fs.Exists(Live(Main));
      if existed {
        var taken := TakeSafetyBackup(safetyId, begun, room);
        if !taken {
          return Refused, at;
        }
      }
      ghost var d1 := fs.disk;
      FreshAfterBackup(d0, d1, safetyId, firstId);
      FreshAfterBackup(d0, d1, safetyId, secondId);
      assert SameFile(d0, d1, Backup(source));
      o, at := ReplaceOrRollBack(source, existed, safetyId, firstId, secondId, prepare, hooks);
    }
  }

  /** Which of its hooks a caller gave. */
  datatype Hooks = Hooks(beforeReplace: bool, afterReplace: bool, beforeRollback: bool, afterRollback: bool)

  datatype Hook = BeforeReplace | AfterReplace | BeforeRollback | AfterRollback

  function If(given: bool, hook: Hook): seq<Hook> {
    if given then [hook] else []
  }

  /** The hooks a restore calls, each if it was given: those around the replacement, or when
      the first of them fails the last of all, or when it rolls back those around that too. */
  predicate HooksCalled(was: seq<Hook>, called: seq<Hook>, hooks: Hooks, o: Ending) {
    var start, end := If(hooks.beforeReplace, BeforeReplace), If(hooks.afterRollback, AfterRollback);
    match o
    case Refused => called == was
    case NotStarted => called == was + [BeforeReplace] + end
    case Restored => called == was + start + If(hooks.afterReplace, AfterReplace)
    case RolledBack =>
      || called == was + start + (If(hooks.beforeRollback, BeforeRollback) + end)
      || called == was + start + If(hooks.afterReplace, AfterReplace) + (If(hooks.beforeRollback, BeforeRollback) + end)
    case RollbackFailed => was + start <= called
  }
}
