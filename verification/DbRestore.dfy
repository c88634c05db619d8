/**
 The startup restore (src/db-restore.js): a damaged database is replaced by the
 newest backup that verifies, and whatever fails or stops, and wherever, no
 data is lost and no unverified file ends up as the database.
 */
module DbRestore {
  import opened Common
  import opened Files

  // ------------------------------------------------------------------ safety

  /** The damaged file's bytes can be found under its own or its second name. */
  ghost predicate BytesKept(d0: Disk, d: Disk, x: Suffix) {
    Live(x) in d0.names ==>
      Read(d, Live(x)) == Read(d0, Live(x)) || Read(d, Aside(x)) == Read(d0, Live(x))
  }

  ghost predicate MainUntouched(d0: Disk, d: Disk) {
    SameBinding(d0, d, Live(Main)) && Read(d, Live(Main)) == Read(d0, Live(Main))
  }

  /** What must hold at every instant of a restore that began on `d0`. */
  ghost predicate Safe(d0: Disk, d: Disk, restorable: Content -> bool) {
    && (forall x: Suffix :: BytesKept(d0, d, x))
    && (MainUntouched(d0, d)
        || (&& Read(d, Live(Main)).Some? && restorable(Read(d, Live(Main)).value)
            && Live(Wal) !in d.names && Live(Shm) !in d.names))
    && (forall i: nat :: Read(d, Backup(i)) == Read(d0, Backup(i)))
  }

  /** Between the start and the swap: the suffixes in `linked` have a second
      name, those in `removed` have lost their first. */
  ghost predicate Preparing(d0: Disk, d: Disk, linked: set<Suffix>, removed: set<Suffix>) {
    && WellFormed(d0) && WellFormed(d) && TempPrivate(d)
    && removed <= linked && Main !in removed
    && (forall x: Suffix :: x in linked ==> Live(x) in d0.names && Aside(x) !in d0.names)
    && (forall x: Suffix :: if x in removed then Live(x) !in d.names else SameBinding(d0, d, Live(x)))
    && (forall x: Suffix :: if x in linked then Aside(x) in d.names && d.names[Aside(x)] == d0.names[Live(x)]
                            else SameBinding(d0, d, Aside(x)))
    && (forall n: Name :: !n.Live? && !n.Aside? && n != Temp ==> SameBinding(d0, d, n))
    && (forall n <- d0.names :: n != Temp ==> d0.names[n] in d.data && d.data[d0.names[n]] == d0.data[d0.names[n]])
  }

  ghost predicate Startable(d0: Disk) {
    WellFormed(d0) && TempPrivate(d0)
  }

  lemma PreparingIsSafe(d0: Disk, d: Disk, linked: set<Suffix>, removed: set<Suffix>, restorable: Content -> bool)
    requires Startable(d0) && Preparing(d0, d, linked, removed)
    ensures Safe(d0, d, restorable)
  {
    forall x: Suffix ensures BytesKept(d0, d, x) {
      if Live(x) in d0.names && x in removed {
        assert Read(d, Aside(x)) == Read(d0, Live(x));
      }
    }
    forall i: nat ensures Read(d, Backup(i)) == Read(d0, Backup(i)) {
      assert SameBinding(d0, d, Backup(i));
    }
  }

  lemma CopyKeepsPreparing(d0: Disk, d: Disk, s: Disk)
    requires Startable(d0) && Preparing(d0, d, {}, {}) && CopyInto(d, s, Temp)
    ensures Preparing(d0, s, {}, {})
  {
    var i := if Temp in d.names then d.names[Temp] else d.next;
    forall n <- d0.names | n != Temp ensures d0.names[n] in s.data && s.data[d0.names[n]] == d0.data[d0.names[n]] {
      assert SameBinding(d0, d, n);
      assert n in d.names && d.names[n] != i;
    }
  }

  lemma LinkKeepsPreparing(d0: Disk, d: Disk, linked: set<Suffix>, x: Suffix)
    requires Startable(d0) && Preparing(d0, d, linked, {}) && x !in linked
    requires Live(x) in d.names && Aside(x) !in d.names
    ensures Preparing(d0, Linked(d, Live(x), Aside(x)), linked + {x}, {})
  {
    assert SameBinding(d0, d, Live(x)) && SameBinding(d0, d, Aside(x));
  }

  lemma UnlinkLiveKeepsPreparing(d0: Disk, d: Disk, linked: set<Suffix>, removed: set<Suffix>, x: Suffix)
    requires Startable(d0) && Preparing(d0, d, linked, removed) && x in linked && x != Main
    ensures Preparing(d0, Unlinked(d, Live(x)), linked, removed + {x})
  {
  }

  lemma PutBackKeepsPreparing(d0: Disk, d: Disk, linked: set<Suffix>, removed: set<Suffix>, x: Suffix)
    requires Startable(d0) && Preparing(d0, d, linked, removed) && x in removed
    ensures Preparing(d0, Linked(d, Aside(x), Live(x)), linked, removed - {x})
  {
  }

  lemma DiscardKeepsPreparing(d0: Disk, d: Disk, linked: set<Suffix>, removed: set<Suffix>, x: Suffix)
    requires Startable(d0) && Preparing(d0, d, linked, removed) && x in linked - removed
    ensures Preparing(d0, Unlinked(d, Aside(x)), linked - {x}, removed)
  {
  }

  lemma DiscardTempKeepsPreparing(d0: Disk, d: Disk, linked: set<Suffix>, removed: set<Suffix>)
    requires Startable(d0) && Preparing(d0, d, linked, removed)
    ensures Preparing(d0, Unlinked(d, Temp), linked, removed)
  {
  }

  /** The swap: the verified copy takes the main name, with nothing beside it,
      and every damaged file still has its second name. */
  lemma SwapIsSafe(d0: Disk, d: Disk, linked: set<Suffix>, removed: set<Suffix>, restorable: Content -> bool)
    requires Startable(d0) && Preparing(d0, d, linked, removed)
    requires forall x: Suffix :: Live(x) in d0.names ==> x in linked && (x != Main ==> x in removed)
    requires Temp in d.names && restorable(d.data[d.names[Temp]])
    ensures var s := Renamed(d, Temp, Live(Main));
            && Safe(d0, s, restorable)
            && Read(s, Live(Main)) == Read(d, Temp)
            && Live(Wal) !in s.names && Live(Shm) !in s.names
            && forall x: Suffix :: Live(x) in d0.names ==> Read(s, Aside(x)) == Read(d0, Live(x))
  {
    var s := Renamed(d, Temp, Live(Main));
    forall x: Suffix | Live(x) in d0.names ensures Read(s, Aside(x)) == Read(d0, Live(x)) {
      assert x in linked;
    }
    assert SameBinding(d0, d, Live(Wal)) || Wal in removed;
    forall i: nat ensures Read(s, Backup(i)) == Read(d0, Backup(i)) {
      assert SameBinding(d0, d, Backup(i));
    }
  }

  // ----------------------------------------------------------------- restore

  /** `kept` are the files a failure's message says it could not put back. */
  datatype Outcome =
    | Restored(candidate: nat)
    | FailClosed(kept: set<Suffix>)

  /** What a caller may rely on once the restore returned or threw. */
  ghost predicate Settled(d0: Disk, d: Disk, candidates: seq<nat>, o: Outcome, restorable: Content -> bool) {
    match o
    case Restored(c) =>
      && c in candidates
      && Read(d, Live(Main)) == Read(d0, Backup(c)) && Read(d, Live(Main)).Some?
      && restorable(Read(d, Live(Main)).value)
      && Live(Wal) !in d.names && Live(Shm) !in d.names
      && (forall x: Suffix :: Live(x) in d0.names ==> Read(d, Aside(x)) == Read(d0, Live(x)))
    case FailClosed(kept) =>
      && Main !in kept
      && forall x: Suffix ::
           if x in kept then Live(x) in d0.names && Read(d, Aside(x)) == Read(d0, Live(x))
           else SameBinding(d0, d, Live(x)) && Read(d, Live(x)) == Read(d0, Live(x))
  }

  lemma StoppedIsSettled(d0: Disk, d: Disk, linked: set<Suffix>, kept: set<Suffix>, candidates: seq<nat>,
                         restorable: Content -> bool)
    requires Startable(d0) && Preparing(d0, d, linked, kept)
    ensures Settled(d0, d, candidates, FailClosed(kept), restorable)
  {
  }

  // ------------------------------------------------------- why it ended so

  /** At `i` the candidate was refused: it could not be copied, or its copy did not verify. */
  ghost predicate RefusedAt(d0: Disk, log: seq<Call>, i: nat, candidate: nat, restorable: Content -> bool) {
    var bytes := Read(d0, Backup(candidate));
    && i < |log| && !log[i].ok
    && (|| log[i] == Call(Copying(Backup(candidate), Temp), bytes.Some?, false)
        || (&& i > 0 && log[i - 1] == Call(Copying(Backup(candidate), Temp), true, true) && bytes.Some?
            && log[i] == Call(Verifying(Temp), restorable(bytes.value), false)))
  }

  ghost predicate Refused(d0: Disk, log: seq<Call>, candidate: nat, restorable: Content -> bool) {
    exists i: nat :: RefusedAt(d0, log, i, candidate, restorable)
  }

  /** Just before `i` the candidate was copied and its copy verified. */
  predicate PreparedAt(log: seq<Call>, i: nat, candidate: nat) {
    && 2 <= i <= |log|
    && log[i - 2] == Call(Copying(Backup(candidate), Temp), true, true) && log[i - 1] == Call(Verifying(Temp), true, true)
  }

  /** At `j` a step that puts a prepared copy in place failed; only a second name
      that was taken already can be the disk's own fault. */
  predicate BlockedAt(d0: Disk, log: seq<Call>, j: nat) {
    && j < |log| && !log[j].ok
    && match log[j].op
       case Linking(Live(x), Aside(y)) => x == y && log[j].possible == (Aside(x) !in d0.names)
       case Unlinking(Live(x)) => x != Main && log[j].possible
       case Renaming(from, to) => from == Temp && to == Live(Main) && log[j].possible
       case _ => false
  }

  ghost predicate GaveUpOn(d0: Disk, log: seq<Call>, candidate: nat) {
    exists i: nat, j: nat :: i <= j && PreparedAt(log, i, candidate) && BlockedAt(d0, log, j)
  }

  /** The files whose link back failed. */
  ghost function NotLinkedBack(log: seq<Call>): set<Suffix> {
    set x: Suffix | Failed(log, Linking(Aside(x), Live(x)))
  }

  /** Nothing the restore made is left behind unless it could not be removed. */
  ghost predicate NothingLeft(d0: Disk, d: Disk, log: seq<Call>, kept: set<Suffix>) {
    && (log != [] && Temp in d.names ==> Failed(log, Unlinking(Temp)))
    && forall x: Suffix ::
         x in kept || SameBinding(d0, d, Aside(x)) || Failed(log, Unlinking(Aside(x)))
  }

  /** Each candidate passed over was refused; the restore only gives up on one that
      verified when putting it in place failed, and only leaves behind what it must. */
  ghost predicate Justified(d0: Disk, d: Disk, log: seq<Call>, candidates: seq<nat>, rejected: seq<nat>, o: Outcome,
                            restorable: Content -> bool)
  {
    && rejected <= candidates
    && (forall c <- rejected :: Refused(d0, log, c, restorable))
    && match o
       case Restored(c) => |rejected| < |candidates| && candidates[|rejected|] == c
       case FailClosed(kept) =>
         && (|rejected| < |candidates| ==> GaveUpOn(d0, log, candidates[|rejected|]))
         && kept == NotLinkedBack(log) && NothingLeft(d0, d, log, kept)
  }

  predicate IsGood(d0: Disk, candidate: nat, restorable: Content -> bool) {
    Read(d0, Backup(candidate)).Some? && restorable(Read(d0, Backup(candidate)).value)
  }

  /** The first candidate that is worth restoring from. */
  ghost predicate IsNewestGood(d0: Disk, candidates: seq<nat>, i: nat, restorable: Content -> bool) {
    && i < |candidates| && IsGood(d0, candidates[i], restorable)
    && forall k | 0 <= k < i :: !IsGood(d0, candidates[k], restorable)
  }

  /** When no call fails and no second name is taken, the newest good backup is
      restored; with no good one everything is as it was. */
  lemma NothingFailedRestores(d0: Disk, d: Disk, log: seq<Call>, candidates: seq<nat>, rejected: seq<nat>, o: Outcome,
                              restorable: Content -> bool)
    requires Justified(d0, d, log, candidates, rejected, o, restorable) && Settled(d0, d, candidates, o, restorable)
    requires NothingFailed(log) && forall x: Suffix :: Aside(x) !in d0.names
    ensures o.Restored? <==> exists i: nat :: IsNewestGood(d0, candidates, i, restorable)
    ensures o.Restored? ==> IsNewestGood(d0, candidates, |rejected|, restorable) && o.candidate == candidates[|rejected|]
    ensures o.FailClosed? ==> o.kept == {} && (forall c <- candidates :: !IsGood(d0, c, restorable))
                              && (candidates != [] ==> Temp !in d.names) && forall x: Suffix :: Aside(x) !in d.names
  {
    forall k | 0 <= k < |rejected| ensures !IsGood(d0, candidates[k], restorable) {
      assert rejected[k] == candidates[k] && rejected[k] in rejected;
      var i: nat :| RefusedAt(d0, log, i, rejected[k], restorable);
      assert log[i] in log;
    }
    if o.Restored? {
      assert IsNewestGood(d0, candidates, |rejected|, restorable);
    } else {
      assert rejected == candidates;
      if candidates != [] {
        assert rejected[0] in rejected && Refused(d0, log, rejected[0], restorable);
        assert log != [];
      }
      forall x: Suffix ensures x !in o.kept && Aside(x) !in d.names {
        assert SameBinding(d0, d, Aside(x)) || Failed(log, Unlinking(Aside(x)));
      }
    }
  }

  lemma StaysRefused(d0: Disk, log: seq<Call>, more: seq<Call>, rejected: seq<nat>, restorable: Content -> bool)
    requires log <= more && forall c <- rejected :: Refused(d0, log, c, restorable)
    ensures forall c <- rejected :: Refused(d0, more, c, restorable)
  {
    forall c <- rejected ensures Refused(d0, more, c, restorable) {
      var i: nat :| RefusedAt(d0, log, i, c, restorable);
      assert RefusedAt(d0, more, i, c, restorable);
    }
  }

  lemma OneCallMore(log: seq<Call>, c: Call)
    ensures forall op :: Failed(log + [c], op) <==> Failed(log, op) || c == Call(op, true, false)
    ensures !(c.op.Linking? && c.op.existing.Aside?) || c.ok ==> NotLinkedBack(log + [c]) == NotLinkedBack(log)
  {
    var more := log + [c];
    forall x: Suffix
      ensures x in NotLinkedBack(more) <==> x in NotLinkedBack(log) || c == Call(Linking(Aside(x), Live(x)), true, false)
    {
      assert Failed(more, Linking(Aside(x), Live(x))) <==>
             Failed(log, Linking(Aside(x), Live(x))) || c == Call(Linking(Aside(x), Live(x)), true, false);
    }
  }

  lemma OneLinkBackMore(log: seq<Call>, x: Suffix, ok: bool)
    ensures NotLinkedBack(log + [Call(Linking(Aside(x), Live(x)), true, ok)]) == NotLinkedBack(log) + if ok then {} else {x}
  {
    var c := Call(Linking(Aside(x), Live(x)), true, ok);
    forall y: Suffix
      ensures y in NotLinkedBack(log + [c]) <==> y in NotLinkedBack(log) || (!ok && x == y)
    {
      assert Failed(log + [c], Linking(Aside(y), Live(y))) <==> Failed(log, Linking(Aside(y), Live(y))) || (!ok && x == y);
    }
  }

  class Restore {
    const fs: FileSystem
    ghost const d0: Disk

    constructor (fs: FileSystem)
      requires Startable(fs.disk)
      ensures this.fs == fs && this.d0 == fs.disk
    {
      this.fs, this.d0 := fs, fs.disk;
    }

    /** Every state so far was safe, and the disk is at the given stage now. */
    ghost predicate At(linked: set<Suffix>, removed: set<Suffix>)
      reads fs
    {
      Startable(d0) && Preparing(d0, fs.disk, linked, removed) && AlwaysSafe()
    }

    ghost predicate AlwaysSafe()
      reads fs
    {
      fs.disk in fs.seen && forall d <- fs.seen :: Safe(d0, d, fs.restorable)
    }

    /** The calls since then linked nothing back without success. */
    ghost predicate Since(was: seq<Call>)
      reads fs
    {
      was <= fs.log && NotLinkedBack(fs.log) == NotLinkedBack(was)
    }

    /** The last call failed, and that is why the restore cannot go on. */
    ghost predicate BlockedSince(was: seq<Call>)
      reads fs
    {
      |fs.log| > |was| && BlockedAt(d0, fs.log, |fs.log| - 1)
    }

    /** `discard(temporary)`: best effort. */
    method DiscardTemp(ghost linked: set<Suffix>, ghost removed: set<Suffix>)
      requires At(linked, removed)
      modifies fs`disk, fs`seen, fs`log
      ensures At(linked, removed) && Since(old(fs.log))
      ensures Temp in fs.disk.names ==> Failed(fs.log, Unlinking(Temp))
    {
      DiscardTempKeepsPreparing(d0, fs.disk, linked, removed);
      ghost var log := fs.log;
      var _ := fs.Unlink(Temp);
      OneCallMore(log, fs.log[|log|]);
      PreparingIsSafe(d0, fs.disk, linked, removed, fs.restorable);
    }

    /** Discards the second names of `doomed`; what stays behind does no harm. */
    method DiscardAside(doomed: set<Suffix>, linked: set<Suffix>, ghost removed: set<Suffix>) returns (ghost left: set<Suffix>)
      requires At(linked, removed) && doomed <= linked - removed
      modifies fs`disk, fs`seen, fs`log
      ensures At(left, removed) && Since(old(fs.log)) && left <= linked
      ensures forall x <- left * doomed :: Failed(fs.log, Unlinking(Aside(x)))
    {
      left := linked;
      var rest := doomed;
      while rest != {}
        invariant rest <= left - removed && left <= linked
        invariant At(left, removed) && Since(old(fs.log))
        invariant forall x <- left * doomed :: x in rest || Failed(fs.log, Unlinking(Aside(x)))
        decreases rest
      {
        var x :| x in rest;
        DiscardKeepsPreparing(d0, fs.disk, left, removed, x);
        ghost var log := fs.log;
        var ok := fs.Unlink(Aside(x));
        OneCallMore(log, fs.log[|log|]);
        left := if ok then left - {x} else left;
        PreparingIsSafe(d0, fs.disk, left, removed, fs.restorable);
        rest := rest - {x};
      }
    }

    /** Copies one candidate beside the database and verifies the copy. */
    method Prepare(candidate: nat) returns (ok: bool)
      requires At({}, {})
      modifies fs`disk, fs`seen, fs`log
      ensures At({}, {}) && Since(old(fs.log))
      ensures ok ==> Temp in fs.disk.names && Read(fs.disk, Temp) == Read(d0, Backup(candidate))
                     && fs.restorable(fs.disk.data[fs.disk.names[Temp]]) && PreparedAt(fs.log, |fs.log|, candidate)
      ensures !ok ==> Refused(d0, fs.log, candidate, fs.restorable)
                      && (Temp in fs.disk.names ==> Failed(fs.log, Unlinking(Temp)))
    {
      DiscardTemp({}, {});
      ok := TryCandidate(candidate);
      if !ok {
        ghost var log, i := fs.log, |fs.log| - 1;
        DiscardTemp({}, {});
        assert RefusedAt(d0, log, i, candidate, fs.restorable);
        assert RefusedAt(d0, fs.log, i, candidate, fs.restorable);
      }
    }

    method TryCandidate(candidate: nat) returns (ok: bool)
      requires At({}, {})
      modifies fs`disk, fs`seen, fs`log
      ensures At({}, {}) && Since(old(fs.log)) && fs.log != []
      ensures ok ==> Temp in fs.disk.names && Read(fs.disk, Temp) == Read(d0, Backup(candidate))
                     && fs.restorable(fs.disk.data[fs.disk.names[Temp]]) && PreparedAt(fs.log, |fs.log|, candidate)
      ensures !ok ==> RefusedAt(d0, fs.log, |fs.log| - 1, candidate, fs.restorable)
    {
      ghost var d, log := fs.disk, fs.log;
      assert SameBinding(d0, d, Backup(candidate));
      ok := fs.Copy(Backup(candidate), Temp);
      OneCallMore(log, fs.log[|log|]);
      forall s | s == d || CopyInto(d, s, Temp) ensures Preparing(d0, s, {}, {}) && Safe(d0, s, fs.restorable) {
        if s != d { CopyKeepsPreparing(d0, d, s); }
        PreparingIsSafe(d0, s, {}, {}, fs.restorable);
      }
      if ok {
        log := fs.log;
        ok := fs.Verify(Temp);
        OneCallMore(log, fs.log[|log|]);
      }
    }

    /** Gives one damaged file, if it is there, a second name by hard link. */
    method KeepOne(x: Suffix, already: set<Suffix>) returns (ok: bool, linked: set<Suffix>)
      requires At(already, {}) && x !in already
      modifies fs`disk, fs`seen, fs`log
      ensures At(linked, {}) && linked <= already + {x} && Since(old(fs.log))
      ensures if ok then linked == if Live(x) in d0.names then already + {x} else already
              else BlockedSince(old(fs.log))
      ensures Read(fs.disk, Temp) == old(Read(fs.disk, Temp))
    {
      ok, linked := true, already;
      assert SameBinding(d0, fs.disk, Live(x)) && SameBinding(d0, fs.disk, Aside(x));
      var there := fs.Exists(Live(x));
      if there {
        ghost var d, log := fs.disk, fs.log;
        ok := fs.Link(Live(x), Aside(x));
        OneCallMore(log, fs.log[|log|]);
        if ok {
          LinkKeepsPreparing(d0, d, already, x);
          linked := already + {x};
          PreparingIsSafe(d0, fs.disk, linked, {}, fs.restorable);
        }
      }
    }

    /** Gives every damaged file a second name. */
    method KeepDamaged() returns (ok: bool, linked: set<Suffix>)
      requires At({}, {})
      modifies fs`disk, fs`seen, fs`log
      ensures At(linked, {}) && Since(old(fs.log))
      ensures if ok then forall x: Suffix :: Live(x) in d0.names ==> x in linked
              else BlockedSince(old(fs.log))
      ensures Read(fs.disk, Temp) == old(Read(fs.disk, Temp))
    {
      linked := {};
      var rest := [Main, Wal, Shm];
      forall x: Suffix ensures x in rest {
        match x
        case Main => assert rest[0] == x;
        case Wal => assert rest[1] == x;
        case Shm => assert rest[2] == x;
      }
      while rest != []
        invariant At(linked, {}) && Since(old(fs.log))
        invariant forall x: Suffix :: x in linked || x in rest || Live(x) !in d0.names
        invariant forall x <- rest :: x !in linked
        invariant forall i, j :: 0 <= i < j < |rest| ==> rest[i] != rest[j]
        invariant Read(fs.disk, Temp) == old(Read(fs.disk, Temp))
        decreases |rest|
      {
        ok, linked := KeepOne(rest[0], linked);
        if !ok {
          return;
        }
        rest := rest[1..];
      }
      ok := true;
    }

    /** Takes one damaged file out of the way, if it is there. */
    method RemoveSidecar(x: Suffix, linked: set<Suffix>, already: set<Suffix>) returns (ok: bool, removed: set<Suffix>)
      requires At(linked, already) && x != Main && x !in already && (Live(x) in d0.names ==> x in linked)
      modifies fs`disk, fs`seen, fs`log
      ensures At(linked, removed) && removed <= already + {x} && Since(old(fs.log))
      ensures if ok then removed == if Live(x) in d0.names then already + {x} else already
              else BlockedSince(old(fs.log))
      ensures Read(fs.disk, Temp) == old(Read(fs.disk, Temp))
    {
      ok, removed := true, already;
      assert SameBinding(d0, fs.disk, Live(x));
      var there := fs.Exists(Live(x));
      if there {
        UnlinkLiveKeepsPreparing(d0, fs.disk, linked, already, x);
        ghost var log := fs.log;
        ok := fs.Unlink(Live(x));
        OneCallMore(log, fs.log[|log|]);
        if ok {
          removed := already + {x};
          PreparingIsSafe(d0, fs.disk, linked, removed, fs.restorable);
        }
      }
    }

    /** Takes the damaged -wal and -shm out of the way. */
    method RemoveSidecars(linked: set<Suffix>) returns (ok: bool, removed: set<Suffix>)
      requires At(linked, {})
      requires forall x: Suffix :: Live(x) in d0.names ==> x in linked
      modifies fs`disk, fs`seen, fs`log
      ensures At(linked, removed) && Since(old(fs.log))
      ensures if ok then forall x: Suffix :: Live(x) in d0.names && x != Main ==> x in removed
              else BlockedSince(old(fs.log))
      ensures Read(fs.disk, Temp) == old(Read(fs.disk, Temp))
    {
      ok, removed := RemoveSidecar(Wal, linked, {});
      if ok {
        ok, removed := RemoveSidecar(Shm, linked, removed);
      }
    }

    /** Links the removed files back; returns those that could not be. */
    method PutBack(linked: set<Suffix>, removed: set<Suffix>) returns (unrestored: set<Suffix>)
      requires At(linked, removed) && NotLinkedBack(fs.log) == {}
      modifies fs`disk, fs`seen, fs`log
      ensures At(linked, unrestored) && unrestored <= removed
      ensures old(fs.log) <= fs.log && NotLinkedBack(fs.log) == unrestored
    {
      unrestored := removed;
      var rest := removed;
      while rest != {}
        invariant rest <= unrestored <= removed
        invariant At(linked, unrestored)
        invariant old(fs.log) <= fs.log && NotLinkedBack(fs.log) == unrestored - rest
        decreases rest
      {
        var x :| x in rest;
        unrestored := PutOneBack(x, linked, unrestored);
        rest := rest - {x};
      }
    }

    method PutOneBack(x: Suffix, linked: set<Suffix>, removed: set<Suffix>) returns (unrestored: set<Suffix>)
      requires At(linked, removed) && x in removed
      modifies fs`disk, fs`seen, fs`log
      ensures At(linked, unrestored) && (unrestored == removed || unrestored == removed - {x})
      ensures old(fs.log) <= fs.log
      ensures NotLinkedBack(fs.log) == old(NotLinkedBack(fs.log)) + ({x} * unrestored)
    {
      PutBackKeepsPreparing(d0, fs.disk, linked, removed, x);
      ghost var log := fs.log;
      unrestored := removed;
      var ok := fs.Link(Aside(x), Live(x));
      OneLinkBackMore(log, x, ok);
      if ok {
        unrestored := removed - {x};
        PreparingIsSafe(d0, fs.disk, linked, unrestored, fs.restorable);
      }
    }

    /** Undoes what can be undone and gives up. */
    method GiveUp(linked: set<Suffix>, removed: set<Suffix>) returns (kept: set<Suffix>)
      requires At(linked, removed) && NotLinkedBack(fs.log) == {}
      modifies fs`disk, fs`seen, fs`log
      ensures AlwaysSafe() && Settled(d0, fs.disk, [], FailClosed(kept), fs.restorable) && kept <= removed
      ensures old(fs.log) <= fs.log && kept == NotLinkedBack(fs.log) && NothingLeft(d0, fs.disk, fs.log, kept)
    {
      kept := PutBack(linked, removed);
      ghost var left := DiscardAside(linked - kept, linked, kept);
      ghost var log := fs.log;
      DiscardTemp(left, kept);
      forall x: Suffix ensures x in kept || SameBinding(d0, fs.disk, Aside(x)) || Failed(fs.log, Unlinking(Aside(x))) {
        if x in left && x !in kept {
          assert x in left * (linked - kept) && Failed(log, Unlinking(Aside(x)));
        }
      }
      StoppedIsSettled(d0, fs.disk, left, kept, [], fs.restorable);
    }

    /** Gives up on the candidate just prepared. */
    method Fail(candidates: seq<nat>, rejected: seq<nat>, linked: set<Suffix>, removed: set<Suffix>, ghost prepared: seq<Call>)
      returns (o: Outcome)
      requires At(linked, removed) && NotLinkedBack(fs.log) == {}
      requires rejected <= candidates && |rejected| < |candidates|
      requires forall c <- rejected :: Refused(d0, prepared, c, fs.restorable)
      requires prepared <= fs.log && PreparedAt(prepared, |prepared|, candidates[|rejected|])
      requires BlockedSince(prepared)
      modifies fs`disk, fs`seen, fs`log
      ensures AlwaysSafe() && fs.disk in fs.seen && Settled(d0, fs.disk, candidates, o, fs.restorable)
      ensures Justified(d0, fs.disk, fs.log, candidates, rejected, o, fs.restorable) && o.FailClosed?
    {
      ghost var j := |fs.log| - 1;
      var kept := GiveUp(linked, removed);
      StaysRefused(d0, prepared, fs.log, rejected, fs.restorable);
      assert PreparedAt(fs.log, |prepared|, candidates[|rejected|]) && BlockedAt(d0, fs.log, j);
      o := FailClosed(kept);
    }

    /**
     Tries the candidates, newest first, until one verifies; swaps it in.
     At every instant, so also at every crash, the disk is safe; on return it is
     settled, and how it ended is justified by what the calls answered.
     `rejected` are the candidates refused, always the newest ones.
     */
    method RestoreFromCandidates(candidates: seq<nat>) returns (o: Outcome, rejected: seq<nat>)
      requires Startable(d0) && fs.disk == d0 && fs.seen == {d0} && fs.log == []
      modifies fs`disk, fs`seen, fs`log
      ensures AlwaysSafe() && fs.disk in fs.seen
      ensures Settled(d0, fs.disk, candidates, o, fs.restorable)
      ensures Justified(d0, fs.disk, fs.log, candidates, rejected, o, fs.restorable)
    {
      rejected := [];
      assert Preparing(d0, fs.disk, {}, {});
      PreparingIsSafe(d0, d0, {}, {}, fs.restorable);
      for i := 0 to |candidates|
        invariant At({}, {}) && NotLinkedBack(fs.log) == {}
        invariant rejected == candidates[..i]
        invariant forall c <- rejected :: Refused(d0, fs.log, c, fs.restorable)
        invariant fs.log != [] && Temp in fs.disk.names ==> Failed(fs.log, Unlinking(Temp))
      {
        ghost var log := fs.log;
        var prepared := Prepare(candidates[i]);
        StaysRefused(d0, log, fs.log, rejected, fs.restorable);
        if !prepared {
          rejected := rejected + [candidates[i]];
          continue;
        }
        o := PutInPlace(candidates, rejected);
        return;
      }
      StoppedIsSettled(d0, fs.disk, {}, {}, candidates, fs.restorable);
      o := FailClosed({});
    }

    /** From the verified copy on: the damaged files get their second names, the
        sidecars leave, the copy takes the main name. */
    method PutInPlace(candidates: seq<nat>, rejected: seq<nat>) returns (o: Outcome)
      requires At({}, {}) && NotLinkedBack(fs.log) == {}
      requires rejected <= candidates && |rejected| < |candidates|
      requires forall c <- rejected :: Refused(d0, fs.log, c, fs.restorable)
      requires PreparedAt(fs.log, |fs.log|, candidates[|rejected|])
      requires Temp in fs.disk.names && Read(fs.disk, Temp) == Read(d0, Backup(candidates[|rejected|]))
      requires fs.restorable(fs.disk.data[fs.disk.names[Temp]])
      modifies fs`disk, fs`seen, fs`log
      ensures AlwaysSafe() && fs.disk in fs.seen
      ensures Settled(d0, fs.disk, candidates, o, fs.restorable)
      ensures Justified(d0, fs.disk, fs.log, candidates, rejected, o, fs.restorable)
    {
      ghost var log := fs.log;
      var ok, linked, removed := Swap(candidates[|rejected|]);
      if ok {
        StaysRefused(d0, log, fs.log, rejected, fs.restorable);
        o := Restored(candidates[|rejected|]);
      } else {
        o := Fail(candidates, rejected, linked, removed, log);
      }
    }

    method Swap(ghost candidate: nat) returns (ok: bool, linked: set<Suffix>, removed: set<Suffix>)
      requires At({}, {})
      requires Temp in fs.disk.names && Read(fs.disk, Temp) == Read(d0, Backup(candidate))
      requires fs.restorable(fs.disk.data[fs.disk.names[Temp]])
      modifies fs`disk, fs`seen, fs`log
      ensures AlwaysSafe() && Since(old(fs.log))
      ensures ok ==> Settled(d0, fs.disk, [candidate], Restored(candidate), fs.restorable)
      ensures !ok ==> At(linked, removed) && BlockedSince(old(fs.log))
    {
      ok, linked, removed := MakeWay();
      if ok {
        ok := TakeName(candidate, linked, removed);
      }
    }

    method MakeWay() returns (ok: bool, linked: set<Suffix>, removed: set<Suffix>)
      requires At({}, {})
      modifies fs`disk, fs`seen, fs`log
      ensures At(linked, removed) && Since(old(fs.log))
      ensures ok ==> forall x: Suffix :: Live(x) in d0.names ==> x in linked && (x != Main ==> x in removed)
      ensures !ok ==> BlockedSince(old(fs.log))
      ensures Read(fs.disk, Temp) == old(Read(fs.disk, Temp))
    {
      ok, linked := KeepDamaged();
      removed := {};
      if ok {
        ok, removed := RemoveSidecars(linked);
      }
    }

    method TakeName(ghost candidate: nat, ghost linked: set<Suffix>, ghost removed: set<Suffix>) returns (ok: bool)
      requires At(linked, removed)
      requires forall x: Suffix :: Live(x) in d0.names ==> x in linked && (x != Main ==> x in removed)
      requires Read(fs.disk, Temp) == Read(d0, Backup(candidate)) && Read(fs.disk, Temp).Some?
      requires fs.restorable(fs.disk.data[fs.disk.names[Temp]])
      modifies fs`disk, fs`seen, fs`log
      ensures AlwaysSafe() && Since(old(fs.log))
      ensures ok ==> Settled(d0, fs.disk, [candidate], Restored(candidate), fs.restorable)
      ensures !ok ==> At(linked, removed) && BlockedSince(old(fs.log))
    {
      ghost var log := fs.log;
      SwapIsSafe(d0, fs.disk, linked, removed, fs.restorable);
      ok := fs.Rename(Temp, Live(Main));
      OneCallMore(log, fs.log[|log|]);
      if !ok {
        PreparingIsSafe(d0, fs.disk, linked, removed, fs.restorable);
      }
    }
  }
}
