/**
 Replacing the database while the Hub runs (src/backup.js): the swap itself,
 and a restore with its safety backup and its rollback.
 */
module DbReplace {
  import opened Common
  import opened Files

  // ------------------------------------------------------- before the swap

  /** Names made from a fresh random id are free. */
  ghost predicate FreshId(d0: Disk, id: nat) {
    Staged(id) !in d0.names && forall x: Suffix :: Replaced(id, x) !in d0.names
  }

  /** The names a replacement may change before the swap. */
  predicate Touched(n: Name, id: nat, moved: set<Suffix>) {
    n == Staged(id) || (n.Live? && n.suffix in moved) || (n.Replaced? && n.id == id && n.suffix in moved)
  }

  /** The files in `moved` are out of the way; nothing else but the staged copy differs. */
  ghost predicate Preparing(d0: Disk, d: Disk, id: nat, moved: set<Suffix>) {
    && WellFormed(d0) && WellFormed(d) && FreshId(d0, id) && Main !in moved
    && d.next >= d0.next
    && (forall i <- d0.data :: i in d.data && d.data[i] == d0.data[i])
    && (forall n: Name :: !Touched(n, id, moved) ==> SameBinding(d0, d, n))
    && (forall x: Suffix :: x in moved ==> MovedAside(d0, d, id, x))
    && (Staged(id) in d.names ==> d.names[Staged(id)] >= d0.next)
  }

  ghost predicate MovedAside(d0: Disk, d: Disk, id: nat, x: Suffix) {
    && Live(x) in d0.names && Live(x) !in d.names
    && Replaced(id, x) in d.names && d.names[Replaced(id, x)] == d0.names[Live(x)]
  }

  // ---------------------------------------------------------- every instant

  ghost predicate MainUntouched(d0: Disk, d: Disk) {
    SameBinding(d0, d, Live(Main)) && Read(d, Live(Main)) == Read(d0, Live(Main))
  }

  /** A checked copy is the database, with no -wal or -shm beside it. */
  ghost predicate SwappedIn(d: Disk, restorable: Content -> bool) {
    && Read(d, Live(Main)).Some? && restorable(Read(d, Live(Main)).value)
    && Live(Wal) !in d.names && Live(Shm) !in d.names
  }

  ghost predicate BackupsKept(d0: Disk, d: Disk) {
    forall i: nat :: Read(d, Backup(i)) == Read(d0, Backup(i))
  }

  /** Names that are neither the database's nor made from this id stay bound as they were. */
  ghost predicate OthersKept(d0: Disk, d: Disk, id: nat) {
    forall n: Name :: !n.Live? && n != Staged(id) && !(n.Replaced? && n.id == id) ==> SameBinding(d0, d, n)
  }

  /** Either the old database is whole, sidecars perhaps under their other names,
      or the new one stands alone. */
  ghost predicate SafeReplace(d0: Disk, d: Disk, id: nat, restorable: Content -> bool) {
    && BackupsKept(d0, d)
    && (|| SwappedIn(d, restorable)
        || (MainUntouched(d0, d) && forall x: Suffix :: SidecarKept(d0, d, id, x)))
  }

  ghost predicate SidecarKept(d0: Disk, d: Disk, id: nat, x: Suffix) {
    Read(d, Live(x)) == Read(d0, Live(x)) || (Live(x) !in d.names && Read(d, Replaced(id, x)) == Read(d0, Live(x)))
  }

  lemma PreparingIsSafe(d0: Disk, d: Disk, id: nat, moved: set<Suffix>, restorable: Content -> bool)
    requires Preparing(d0, d, id, moved)
    ensures SafeReplace(d0, d, id, restorable)
  {
    assert !Touched(Live(Main), id, moved);
    forall i: nat ensures Read(d, Backup(i)) == Read(d0, Backup(i)) {
      assert !Touched(Backup(i), id, moved);
    }
    forall x: Suffix ensures SidecarKept(d0, d, id, x) {
      if x in moved {
        assert MovedAside(d0, d, id, x);
      } else {
        assert !Touched(Live(x), id, moved);
      }
    }
  }

  lemma StagingKeepsPreparing(d0: Disk, d: Disk, s: Disk, id: nat)
    requires Preparing(d0, d, id, {}) && CopyInto(d, s, Staged(id))
    ensures Preparing(d0, s, id, {})
  {
    forall n: Name | !Touched(n, id, {}) ensures SameBinding(d0, s, n) {
      assert SameBinding(d0, d, n);
    }
  }

  lemma MovingKeepsPreparing(d0: Disk, d: Disk, id: nat, moved: set<Suffix>, x: Suffix)
    requires Preparing(d0, d, id, moved) && x !in moved && x != Main && Live(x) in d.names
    ensures Preparing(d0, Renamed(d, Live(x), Replaced(id, x)), id, moved + {x})
  {
    var s := Renamed(d, Live(x), Replaced(id, x));
    assert !Touched(Live(x), id, moved);
    forall n: Name | !Touched(n, id, moved + {x}) ensures SameBinding(d0, s, n) {
      assert SameBinding(d0, d, n);
    }
    forall y: Suffix | y in moved + {x} ensures MovedAside(d0, s, id, y) {
      assert y in moved ==> MovedAside(d0, d, id, y);
    }
  }

  lemma PuttingBackKeepsPreparing(d0: Disk, d: Disk, id: nat, moved: set<Suffix>, x: Suffix)
    requires Preparing(d0, d, id, moved) && x in moved
    ensures Preparing(d0, Renamed(d, Replaced(id, x), Live(x)), id, moved - {x})
  {
    var s := Renamed(d, Replaced(id, x), Live(x));
    assert MovedAside(d0, d, id, x);
    forall n: Name | !Touched(n, id, moved - {x}) ensures SameBinding(d0, s, n) {
      assert n == Live(x) || n == Replaced(id, x) || SameBinding(d0, d, n);
    }
    forall y: Suffix | y in moved - {x} ensures MovedAside(d0, s, id, y) {
      assert MovedAside(d0, d, id, y);
    }
  }

  lemma DiscardKeepsPreparing(d0: Disk, d: Disk, id: nat, moved: set<Suffix>)
    requires Preparing(d0, d, id, moved)
    ensures Preparing(d0, Unlinked(d, Staged(id)), id, moved)
  {
    var s := Unlinked(d, Staged(id));
    forall n: Name | !Touched(n, id, moved) ensures SameBinding(d0, s, n) {
      assert SameBinding(d0, d, n);
    }
    forall y: Suffix | y in moved ensures MovedAside(d0, s, id, y) {
      assert MovedAside(d0, d, id, y);
    }
  }

  /** The swap: with every sidecar moved, the checked copy becomes the database. */
  lemma SwapStandsAlone(d0: Disk, d: Disk, id: nat, moved: set<Suffix>, restorable: Content -> bool)
    requires Preparing(d0, d, id, moved) && Live(Wal) !in d.names && Live(Shm) !in d.names
    requires Read(d, Staged(id)).Some? && restorable(Read(d, Staged(id)).value)
    ensures var s := Renamed(d, Staged(id), Live(Main));
            && SwappedIn(s, restorable) && BackupsKept(d0, s) && OthersKept(d0, s, id) && WellFormed(s)
            && Read(s, Live(Main)) == Read(d, Staged(id))
  {
    forall i: nat ensures Read(Renamed(d, Staged(id), Live(Main)), Backup(i)) == Read(d0, Backup(i)) {
      assert !Touched(Backup(i), id, moved);
    }
    OthersAreKept(d0, d, id, moved);
  }

  lemma OthersAreKept(d0: Disk, d: Disk, id: nat, moved: set<Suffix>)
    requires Preparing(d0, d, id, moved)
    ensures OthersKept(d0, d, id)
  {
    forall n: Name | !n.Live? && n != Staged(id) && !(n.Replaced? && n.id == id) ensures SameBinding(d0, d, n) {
      assert !Touched(n, id, moved);
    }
  }

  // ------------------------------------------------------- replaceDbAtomically

  /** `kept` are the sidecars a failure's log names as not put back. */
  datatype Outcome =
    | Done
    | FailedBefore(kept: set<Suffix>)
    | FailedAfter

  /** What a caller may rely on once the replacement returned or threw. */
  ghost predicate Settled(d0: Disk, d: Disk, id: nat, o: Outcome, copy: Option<Content>, restorable: Content -> bool) {
    match o
    case Done => SwappedIn(d, restorable) && Read(d, Live(Main)) == copy && BackupsKept(d0, d)
    case FailedBefore(kept) => Main !in kept && BackupsKept(d0, d) && MainUntouched(d0, d)
                               && forall x: Suffix :: LeftAsNamed(d0, d, id, kept, x)
    case FailedAfter => SwappedIn(d, restorable) && Read(d, Live(Main)) == copy && BackupsKept(d0, d)
  }

  ghost predicate LeftAsNamed(d0: Disk, d: Disk, id: nat, kept: set<Suffix>, x: Suffix) {
    if x in kept then Live(x) !in d.names && Read(d, Replaced(id, x)) == Read(d0, Live(x))
    else SameBinding(d0, d, Live(x)) && Read(d, Live(x)) == Read(d0, Live(x))
  }

  lemma StoppedIsSettled(d0: Disk, d: Disk, id: nat, kept: set<Suffix>, copy: Option<Content>, restorable: Content -> bool)
    requires Preparing(d0, d, id, kept)
    ensures Settled(d0, d, id, FailedBefore(kept), copy, restorable)
  {
    PreparingIsSafe(d0, d, id, kept, restorable);
    assert !Touched(Live(Main), id, kept);
    forall i: nat ensures Read(d, Backup(i)) == Read(d0, Backup(i)) {
      assert !Touched(Backup(i), id, kept);
    }
    forall x: Suffix ensures LeftAsNamed(d0, d, id, kept, x) {
      if x in kept {
        assert MovedAside(d0, d, id, x);
      } else {
        assert !Touched(Live(x), id, kept);
      }
    }
  }

  /** After the swap only files that belonged to the old database go. */
  lemma CleaningKeepsSwappedIn(d0: Disk, d: Disk, id: nat, n: Name, restorable: Content -> bool)
    requires SwappedIn(d, restorable) && BackupsKept(d0, d) && OthersKept(d0, d, id)
    requires n == Staged(id) || (n.Replaced? && n.id == id)
    ensures SwappedIn(Unlinked(d, n), restorable) && BackupsKept(d0, Unlinked(d, n))
    ensures OthersKept(d0, Unlinked(d, n), id)
    ensures Read(Unlinked(d, n), Live(Main)) == Read(d, Live(Main))
  {
    forall i: nat ensures Read(Unlinked(d, n), Backup(i)) == Read(d0, Backup(i)) {
      assert Read(d, Backup(i)) == Read(d0, Backup(i));
    }
    forall m: Name | !m.Live? && m != Staged(id) && !(m.Replaced? && m.id == id)
      ensures SameBinding(d0, Unlinked(d, n), m)
    {
      assert SameBinding(d0, d, m);
    }
  }

  /** What the copy becomes before it is checked: the Hub's own credentials go in. */
  type Prepare = Content -> Content

  // ------------------------------------------------------- why it ended so

  /** The last call failed, and it is one the replacement cannot go on without. Only a
      source that is missing or a copy that does not pass can be the disk's own fault. */
  predicate Blocked(log: seq<Call>, id: nat, source: nat, read: bool, sound: bool) {
    && log != [] && !log[|log| - 1].ok
    && var c := log[|log| - 1];
       match c.op
       case Copying(from, to) => from == Backup(source) && to == Staged(id) && c.possible == read
       case Protecting(n) => n == Staged(id) && c.possible
       case Writing(to) => to == Staged(id) && c.possible
       case Verifying(n) => n == Staged(id) && read && c.possible == sound
       case Renaming(from, to) =>
         && c.possible
         && ((from == Staged(id) && to == Live(Main))
             || (from.Live? && from.suffix != Main && to == Replaced(id, from.suffix)))
       case _ => false
  }

  /** The files whose move back failed. */
  ghost function NotMovedBack(log: seq<Call>, id: nat): set<Suffix> {
    set x: Suffix | Failed(log, Renaming(Replaced(id, x), Live(x)))
  }

  predicate OwnName(n: Name, id: nat) {
    n == Staged(id) || (n.Replaced? && n.id == id)
  }

  /** Of the names made from this id only those of the files in `kept` are still there,
      and those that could not be removed. */
  ghost predicate IsTidy(d: Disk, log: seq<Call>, id: nat, kept: set<Suffix>) {
    forall n <- d.names :: OwnName(n, id) ==> (n.Replaced? && n.suffix in kept) || Failed(log, Unlinking(n))
  }

  /** How a replacement ended follows from what its calls answered. */
  ghost predicate Justified(d0: Disk, d: Disk, log: seq<Call>, id: nat, source: nat, prepare: Option<Prepare>, o: Outcome,
                            restorable: Content -> bool)
  {
    var copy := Staging(Read(d0, Backup(source)), prepare);
    match o
    case Done => IsTidy(d, log, id, {})
    case FailedBefore(kept) =>
      && (exists i: nat :: i <= |log| && Blocked(log[..i], id, source, copy.Some?, copy.Some? && restorable(copy.value)))
      && kept == NotMovedBack(log, id)
      && IsTidy(d, log, id, kept)
    case FailedAfter => Failed(log, Verifying(Live(Main))) && IsTidy(d, log, id, {})
  }

  /** When no call fails, a replacement is done exactly if the copy passes;
      otherwise nothing has changed and nothing is left behind. */
  lemma NothingFailedReplaces(d0: Disk, d: Disk, log: seq<Call>, id: nat, source: nat, prepare: Option<Prepare>, o: Outcome,
                              restorable: Content -> bool)
    requires Justified(d0, d, log, id, source, prepare, o, restorable) && NothingFailed(log)
    requires Settled(d0, d, id, o, Staging(Read(d0, Backup(source)), prepare), restorable)
    ensures var copy := Staging(Read(d0, Backup(source)), prepare);
            o == if copy.Some? && restorable(copy.value) then Done else FailedBefore({})
    ensures forall n <- d.names :: !OwnName(n, id)
  {
    var copy := Staging(Read(d0, Backup(source)), prepare);
    if o.FailedBefore? {
      var i: nat :| i <= |log| && Blocked(log[..i], id, source, copy.Some?, copy.Some? && restorable(copy.value));
      assert log[..i][i - 1] == log[i - 1] && log[i - 1] in log;
    }
  }

  lemma OneCallMore(log: seq<Call>, c: Call, id: nat)
    ensures forall op :: Failed(log + [c], op) <==> Failed(log, op) || c == Call(op, true, false)
    ensures !(c.op.Renaming? && c.op.from.Replaced?) || c.ok ==> NotMovedBack(log + [c], id) == NotMovedBack(log, id)
  {
    var more := log + [c];
    forall x: Suffix
      ensures x in NotMovedBack(more, id) <==>
              x in NotMovedBack(log, id) || c == Call(Renaming(Replaced(id, x), Live(x)), true, false)
    {
      assert Failed(more, Renaming(Replaced(id, x), Live(x))) <==>
             Failed(log, Renaming(Replaced(id, x), Live(x))) || c == Call(Renaming(Replaced(id, x), Live(x)), true, false);
    }
  }

  lemma OneMoveBackMore(log: seq<Call>, id: nat, x: Suffix, ok: bool)
    ensures NotMovedBack(log + [Call(Renaming(Replaced(id, x), Live(x)), true, ok)], id)
            == NotMovedBack(log, id) + if ok then {} else {x}
  {
    var c := Call(Renaming(Replaced(id, x), Live(x)), true, ok);
    forall y: Suffix
      ensures y in NotMovedBack(log + [c], id) <==> y in NotMovedBack(log, id) || (!ok && x == y)
    {
      assert Failed(log + [c], Renaming(Replaced(id, y), Live(y))) <==>
             Failed(log, Renaming(Replaced(id, y), Live(y))) || (!ok && x == y);
    }
  }

  lemma PreparingIsTidy(d0: Disk, d: Disk, log: seq<Call>, id: nat, moved: set<Suffix>)
    requires Preparing(d0, d, id, moved)
    ensures IsTidy(Unlinked(d, Staged(id)), log, id, moved)
  {
    forall n <- d.names | OwnName(n, id) && n != Staged(id) ensures n.suffix in moved {
      assert Touched(n, id, moved) || SameBinding(d0, d, n);
    }
  }

  class Replacement {
    const fs: FileSystem
    const id: nat
    ghost const d0: Disk
    ghost const before: set<Disk>
    ghost const log0: seq<Call>

    constructor (fs: FileSystem, id: nat)
      requires WellFormed(fs.disk) && FreshId(fs.disk, id)
      ensures this.fs == fs && this.id == id && d0 == fs.disk && before == fs.seen && log0 == fs.log
      ensures Preparing(d0, d0, id, {})
    {
      this.fs, this.id, d0, before, log0 := fs, id, fs.disk, fs.seen, fs.log;
    }

    /** The calls of this replacement. */
    ghost function Calls(): seq<Call>
      reads fs
      requires log0 <= fs.log
    {
      fs.log[|log0|..]
    }

    /** No move back has failed. */
    ghost predicate NoneStuck()
      reads fs
    {
      log0 <= fs.log && NotMovedBack(Calls(), id) == {}
    }

    lemma Called(was: seq<Call>, c: Call)
      requires log0 <= fs.log && fs.log[|log0|..] == was + [c]
      ensures Calls() == was + [c]
      ensures forall op :: Failed(Calls(), op) <==> Failed(was, op) || c == Call(op, true, false)
      ensures (!(c.op.Renaming? && c.op.from.Replaced?) || c.ok) && NotMovedBack(was, id) == {} ==> NoneStuck()
    {
      OneCallMore(was, c, id);
    }

    /** The last call failed, and the replacement cannot go on without it. */
    ghost predicate IsBlocked(source: nat, copy: Option<Content>)
      reads fs
    {
      log0 <= fs.log && Blocked(Calls(), id, source, copy.Some?, copy.Some? && fs.restorable(copy.value))
    }

    /** Every state since the start was safe. */
    ghost predicate AlwaysSafe()
      reads fs
    {
      forall s <- fs.seen :: s in before || SafeReplace(d0, s, id, fs.restorable)
    }

    ghost predicate At(moved: set<Suffix>)
      reads fs
    {
      Preparing(d0, fs.disk, id, moved) && AlwaysSafe() && log0 <= fs.log
    }

    /** The staged copy: copied, protected, prepared, and checked last. */
    method Stage(source: nat, prepare: Option<Prepare>) returns (ok: bool)
      requires At({}) && NoneStuck() && Staged(id) !in fs.disk.names
      modifies fs`disk, fs`seen, fs`log
      ensures At({}) && NoneStuck()
      ensures var copy := Staging(Read(d0, Backup(source)), prepare);
              if ok then copy.Some? && fs.restorable(copy.value) && Read(fs.disk, Staged(id)) == copy
              else IsBlocked(source, copy)
    {
      ok := StageCopy(source, prepare);
      if ok {
        ok := StagePrepared(source, prepare);
      }
      if ok {
        ok := StageChecked(source, Staging(Read(d0, Backup(source)), prepare));
      }
    }

    method StageCopy(source: nat, ghost prepare: Option<Prepare>) returns (ok: bool)
      requires At({}) && NoneStuck() && Staged(id) !in fs.disk.names
      modifies fs`disk, fs`seen, fs`log
      ensures At({}) && NoneStuck()
      ensures if ok then Read(fs.disk, Staged(id)).Some? && Read(fs.disk, Staged(id)) == Read(d0, Backup(source))
              else IsBlocked(source, Staging(Read(d0, Backup(source)), prepare))
    {
      ghost var d, calls := fs.disk, Calls();
      assert SameBinding(d0, d, Backup(source)) by { assert !Touched(Backup(source), id, {}); }
      ok := fs.Copy(Backup(source), Staged(id));
      Called(calls, fs.log[|fs.log| - 1]);
      StagedSafely(d);
      if ok {
        calls := Calls();
        ok := fs.Protect(Staged(id));
        Called(calls, fs.log[|fs.log| - 1]);
      }
    }

    method StagePrepared(ghost source: nat, prepare: Option<Prepare>) returns (ok: bool)
      requires At({}) && NoneStuck() && Read(fs.disk, Staged(id)).Some?
      modifies fs`disk, fs`seen, fs`log
      ensures At({}) && NoneStuck()
      ensures var copy := Staging(old(Read(fs.disk, Staged(id))), prepare);
              if ok then copy.Some? && Read(fs.disk, Staged(id)) == copy else IsBlocked(source, copy)
    {
      ok := true;
      if prepare.Some? {
        ghost var d, calls := fs.disk, Calls();
        var bytes := fs.disk.data[fs.disk.names[Staged(id)]];
        ok := fs.Write(Staged(id), prepare.value(bytes));
        Called(calls, fs.log[|fs.log| - 1]);
        StagedSafely(d);
      }
    }

    method StageChecked(ghost source: nat, ghost copy: Option<Content>) returns (ok: bool)
      requires At({}) && NoneStuck() && copy.Some? && Read(fs.disk, Staged(id)) == copy
      modifies fs`log
      ensures At({}) && NoneStuck()
      ensures if ok then fs.restorable(copy.value) else IsBlocked(source, copy)
    {
      ghost var calls := Calls();
      ok := fs.Verify(Staged(id));
      Called(calls, fs.log[|fs.log| - 1]);
    }

    lemma StagedSafely(d: Disk)
      requires Preparing(d0, d, id, {})
      ensures forall s :: s == d || CopyInto(d, s, Staged(id)) ==>
                Preparing(d0, s, id, {}) && SafeReplace(d0, s, id, fs.restorable)
    {
      forall s | s == d || CopyInto(d, s, Staged(id))
        ensures Preparing(d0, s, id, {}) && SafeReplace(d0, s, id, fs.restorable)
      {
        if s != d {
          StagingKeepsPreparing(d0, d, s, id);
        }
        PreparingIsSafe(d0, s, id, {}, fs.restorable);
      }
    }

    /** Moves the old -wal and -shm out of the way. */
    method MoveAside(ghost source: nat, ghost copy: Option<Content>) returns (ok: bool, moved: set<Suffix>)
      requires At({}) && NoneStuck()
      modifies fs`disk, fs`seen, fs`log
      ensures At(moved) && Read(fs.disk, Staged(id)) == old(Read(fs.disk, Staged(id))) && NoneStuck()
      ensures if ok then Live(Wal) !in fs.disk.names && Live(Shm) !in fs.disk.names else IsBlocked(source, copy)
    {
      ok, moved := MoveOne(Wal, {}, source, copy);
      if ok {
        ghost var d := fs.disk;
        ok, moved := MoveOne(Shm, moved, source, copy);
        assert SameBinding(d, fs.disk, Live(Wal));
      }
    }

    method MoveOne(x: Suffix, already: set<Suffix>, ghost source: nat, ghost copy: Option<Content>)
      returns (ok: bool, moved: set<Suffix>)
      requires At(already) && NoneStuck() && x !in already && x != Main
      modifies fs`disk, fs`seen, fs`log
      ensures At(moved) && Read(fs.disk, Staged(id)) == old(Read(fs.disk, Staged(id))) && NoneStuck()
      ensures if ok then Live(x) !in fs.disk.names else IsBlocked(source, copy)
      ensures moved <= already + {x}
      ensures forall n: Name :: n.Live? && n != Live(x) ==> SameBinding(old(fs.disk), fs.disk, n)
    {
      moved := already;
      ok := true;
      var there := fs.Exists(Live(x));
      if there {
        MovingKeepsPreparing(d0, fs.disk, id, already, x);
        PreparingIsSafe(d0, fs.disk, id, already, fs.restorable);
        ghost var calls := Calls();
        ok := fs.Rename(Live(x), Replaced(id, x));
        Called(calls, fs.log[|fs.log| - 1]);
        if ok {
          moved := already + {x};
          PreparingIsSafe(d0, fs.disk, id, moved, fs.restorable);
        }
      }
    }

    /** Puts back what was moved, the last first; returns what could not be. */
    method PutBack(moved: set<Suffix>) returns (kept: set<Suffix>)
      requires At(moved) && NoneStuck()
      modifies fs`disk, fs`seen, fs`log
      ensures At(kept) && kept <= moved
      ensures old(Calls()) <= Calls() && kept == NotMovedBack(Calls(), id)
    {
      ghost var d := fs.disk;
      kept := PutOneBack(Shm, moved);
      kept := PutOneBack(Wal, kept);
      MainStays(kept);
    }

    lemma MainStays(moved: set<Suffix>)
      requires At(moved)
      ensures moved == {Shm} * moved + {Wal} * moved
    {
      forall x <- moved ensures x == Shm || x == Wal {
      }
    }

    method PutOneBack(x: Suffix, moved: set<Suffix>) returns (kept: set<Suffix>)
      requires At(moved)
      modifies fs`disk, fs`seen, fs`log
      ensures At(kept) && moved - {x} <= kept <= moved
      ensures old(Calls()) <= Calls() && NotMovedBack(Calls(), id) == old(NotMovedBack(Calls(), id)) + ({x} * kept)
    {
      kept := moved;
      if x in moved {
        PuttingBackKeepsPreparing(d0, fs.disk, id, moved, x);
        PreparingIsSafe(d0, fs.disk, id, moved, fs.restorable);
        ghost var calls := Calls();
        var ok := fs.Rename(Replaced(id, x), Live(x));
        Called(calls, fs.log[|fs.log| - 1]);
        OneMoveBackMore(calls, id, x, ok);
        if ok {
          kept := moved - {x};
          PreparingIsSafe(d0, fs.disk, id, kept, fs.restorable);
        }
      }
    }

    method GiveUp(moved: set<Suffix>, ghost source: nat, ghost prepare: Option<Prepare>) returns (o: Outcome)
      requires At(moved) && NoneStuck()
      requires IsBlocked(source, Staging(Read(d0, Backup(source)), prepare))
      modifies fs`disk, fs`seen, fs`log
      ensures AlwaysSafe() && WellFormed(fs.disk) && OthersKept(d0, fs.disk, id) && log0 <= fs.log
      ensures o.FailedBefore?
      ensures Settled(d0, fs.disk, id, o, Staging(Read(d0, Backup(source)), prepare), fs.restorable)
      ensures Justified(d0, fs.disk, Calls(), id, source, prepare, o, fs.restorable)
    {
      ghost var calls := Calls();
      var kept := PutBack(moved);
      assert Calls()[..|calls|] == calls;
      DiscardStaged(kept);
      assert Calls()[..|calls|] == calls;
      StoppedIsSettled(d0, fs.disk, id, kept, Staging(Read(d0, Backup(source)), prepare), fs.restorable);
      OthersAreKept(d0, fs.disk, id, kept);
      o := FailedBefore(kept);
    }

    method DiscardStaged(ghost kept: set<Suffix>)
      requires At(kept)
      modifies fs`disk, fs`seen, fs`log
      ensures At(kept) && old(Calls()) <= Calls() && NotMovedBack(Calls(), id) == old(NotMovedBack(Calls(), id))
      ensures IsTidy(fs.disk, Calls(), id, kept)
    {
      DiscardKeepsPreparing(d0, fs.disk, id, kept);
      ghost var calls := Calls();
      var _ := fs.Unlink(Staged(id));
      Called(calls, fs.log[|fs.log| - 1]);
      PreparingIsSafe(d0, fs.disk, id, kept, fs.restorable);
      PreparingIsTidy(d0, fs.disk, Calls(), id, kept);
    }

    /** Removes the staged name, or a file of the replaced database, if it goes. */
    method Clean(n: Name, ghost copy: Option<Content>, ghost left: set<Suffix>)
      requires Swapped(copy, left) && OwnName(n, id)
      modifies fs`disk, fs`seen, fs`log
      ensures Swapped(copy, if n.Replaced? then left - {n.suffix} else left)
    {
      CleaningKeepsSwappedIn(d0, fs.disk, id, n, fs.restorable);
      ghost var calls := Calls();
      var _ := fs.Unlink(n);
      Called(calls, fs.log[|fs.log| - 1]);
    }

    ghost predicate Swapped(copy: Option<Content>, left: set<Suffix>)
      reads fs
    {
      && SwappedIn(fs.disk, fs.restorable) && BackupsKept(d0, fs.disk) && OthersKept(d0, fs.disk, id) && AlwaysSafe()
      && Read(fs.disk, Live(Main)) == copy && WellFormed(fs.disk)
      && log0 <= fs.log && IsTidy(fs.disk, Calls(), id, left)
    }

    /**
     `replaceDbAtomically`. At every instant, so also at every crash, either the
     old database is whole or a checked copy stands alone in its place; how it
     ended is justified by what the calls answered.
     */
    method Replace(source: nat, prepare: Option<Prepare>) returns (o: Outcome)
      requires fs.disk == d0 && fs.seen == before && fs.log == log0 && Preparing(d0, d0, id, {})
      modifies fs`disk, fs`seen, fs`log
      ensures AlwaysSafe() && WellFormed(fs.disk) && OthersKept(d0, fs.disk, id) && log0 <= fs.log
      ensures Settled(d0, fs.disk, id, o, Staging(Read(d0, Backup(source)), prepare), fs.restorable)
      ensures Justified(d0, fs.disk, Calls(), id, source, prepare, o, fs.restorable)
    {
      PreparingIsSafe(d0, d0, id, {}, fs.restorable);
      assert NoneStuck();
      ghost var copy := Staging(Read(d0, Backup(source)), prepare);
      var ok, moved := StageAndSwap(source, prepare);
      if !ok {
        o := GiveUp(moved, source, prepare);
        return;
      }
      CleanUp(moved, copy);
      ghost var calls := Calls();
      ok := fs.Verify(Live(Main));
      Called(calls, fs.log[|fs.log| - 1]);
      o := if ok then Done else FailedAfter;
    }

    method StageAndSwap(source: nat, prepare: Option<Prepare>) returns (ok: bool, moved: set<Suffix>)
      requires At({}) && Staged(id) !in fs.disk.names && NoneStuck()
      modifies fs`disk, fs`seen, fs`log
      ensures NoneStuck()
      ensures var copy := Staging(Read(d0, Backup(source)), prepare);
              if ok then Swapped(copy, moved) && Main !in moved
              else At(moved) && IsBlocked(source, copy)
    {
      ghost var copy := Staging(Read(d0, Backup(source)), prepare);
      moved := {};
      ok := Stage(source, prepare);
      if ok {
        ok, moved := MoveAside(source, copy);
      }
      if ok {
        ok := TakeName(moved, source, copy);
      }
    }

    method TakeName(ghost moved: set<Suffix>, ghost source: nat, ghost copy: Option<Content>) returns (ok: bool)
      requires At(moved) && NoneStuck() && Live(Wal) !in fs.disk.names && Live(Shm) !in fs.disk.names
      requires copy.Some? && fs.restorable(copy.value) && Read(fs.disk, Staged(id)) == copy
      modifies fs`disk, fs`seen, fs`log
      ensures NoneStuck()
      ensures if ok then Swapped(copy, moved) && Main !in moved
              else At(moved) && IsBlocked(source, copy)
    {
      ghost var d, calls := fs.disk, Calls();
      SwapStandsAlone(d0, d, id, moved, fs.restorable);
      PreparingIsSafe(d0, d, id, moved, fs.restorable);
      ok := fs.Rename(Staged(id), Live(Main));
      Called(calls, fs.log[|fs.log| - 1]);
      PreparingIsTidy(d0, d, Calls(), id, moved);
    }

    /** What was moved aside belonged to the database just replaced. */
    method CleanUp(moved: set<Suffix>, ghost copy: Option<Content>)
      requires Swapped(copy, moved) && Main !in moved
      modifies fs`disk, fs`seen, fs`log
      ensures Swapped(copy, {})
    {
      Clean(Staged(id), copy, moved);
      CleanAside(Wal, moved, copy, moved);
      CleanAside(Shm, moved, copy, moved - {Wal});
      assert moved - {Wal} - {Shm} == {} by {
        forall x <- moved ensures x == Wal || x == Shm {
        }
      }
    }

    method CleanAside(x: Suffix, moved: set<Suffix>, ghost copy: Option<Content>, ghost left: set<Suffix>)
      requires Swapped(copy, left) && left <= moved
      modifies fs`disk, fs`seen, fs`log
      ensures Swapped(copy, left - {x})
    {
      assert x !in moved ==> left - {x} == left;
      if x in moved {
        Clean(Replaced(id, x), copy, left);
      }
    }
  }

  /** The bytes a staged copy ends up with. */
  function Staging(source: Option<Content>, prepare: Option<Prepare>): Option<Content> {
    if source.Some? && prepare.Some? then Some(prepare.value(source.value)) else source
  }
}
